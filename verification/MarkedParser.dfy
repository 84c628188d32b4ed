/** marked's parser: mutually recursive loops consume a token list and fold the block
    tree it flattens. */
module MarkedParser {
  import opened Wrappers
  import opened Strings
  import opened MarkedBlocks

  /** The renderer's methods and the inline lexer, as functions. */
  datatype Renderer = Renderer(
    pedantic: bool,
    inline: string -> string,
    hr: string,
    heading: (string, nat, string) -> string,
    code: (string, Option<string>) -> string,
    tablecell: (string, bool, Option<string>) -> string,
    tablerow: string -> string,
    table: (string, string) -> string,
    blockquote: string -> string,
    list: (string, bool) -> string,
    listitem: string -> string,
    html: string -> string,
    paragraph: string -> string)

  // ---------- The fold of a tree ----------

  function AlignAt(align: seq<Option<string>>, i: nat): Option<string> { if i < |align| then align[i] else None }

  function Cells(row: seq<string>, header: bool, align: seq<Option<string>>, r: Renderer): string {
    if row == [] then "" else
      var n := |row| - 1;
      Cells(row[..n], header, align, r) + r.tablecell(r.inline(row[n]), header, AlignAt(align, n))
  }

  function Rows(rows: seq<seq<string>>, align: seq<Option<string>>, r: Renderer): string {
    if rows == [] then "" else
      var n := |rows| - 1;
      Rows(rows[..n], align, r) + r.tablerow(Cells(rows[n], false, align, r))
  }

  /** A leaf other than text. */
  function RenderLeaf(t: Token, r: Renderer): string {
    match t
    case Hr => r.hr
    case Heading(depth, text) => r.heading(r.inline(text), depth, text)
    case Code(text, lang) => r.code(text, lang)
    case Table(header, align, cells) => r.table(r.tablerow(Cells(header, true, align, r)), Rows(cells, align, r))
    case Html(pre, text) => r.html(if !pre && !r.pedantic then r.inline(text) else text)
    case Paragraph(text) => r.paragraph(r.inline(text))
    case _ => ""
  }

  predicate IsText(b: Block) { b.Leaf? && b.token.Text? }

  /** How many text blocks stand in front. */
  function TextRun(blocks: seq<Block>): (n: nat)
    ensures n <= |blocks| && forall i :: 0 <= i < n ==> IsText(blocks[i])
    ensures n < |blocks| ==> !IsText(blocks[n])
  {
    if blocks != [] && IsText(blocks[0]) then 1 + TextRun(blocks[1..]) else 0
  }

  /** Consecutive texts are one text of several lines. */
  function Lines(blocks: seq<Block>): string
    requires blocks != [] && forall i :: 0 <= i < |blocks| ==> IsText(blocks[i])
  {
    var n := |blocks| - 1;
    assert IsText(blocks[n]);
    if n == 0 then blocks[n].token.text else Lines(blocks[..n]) + "\n" + blocks[n].token.text
  }

  /** The blocks up to the end of the first group: a run of texts, or one block. */
  function Group(blocks: seq<Block>): (n: nat)
    requires blocks != []
    ensures 0 < n <= |blocks|
  {
    if IsText(blocks[0]) then TextRun(blocks) else 1
  }

  /** In a tight item texts stand by themselves, elsewhere they are paragraphs. */
  function Render(blocks: seq<Block>, tight: bool, r: Renderer): string
    decreases blocks, 0
  {
    if blocks == [] then ""
    else if IsText(blocks[0]) then
      var n := TextRun(blocks);
      var text := r.inline(Lines(blocks[..n]));
      (if tight then text else r.paragraph(text)) + Render(blocks[n..], tight, r)
    else RenderBlock(blocks[0], r) + Render(blocks[1..], tight, r)
  }

  function RenderBlock(b: Block, r: Renderer): string
    decreases b, 1
  {
    match b
    case Leaf(t) => RenderLeaf(t, r)
    case Quote(body) => r.blockquote(Render(body, false, r))
    case List(ordered, items) => r.list(RenderItems(items, r), ordered)
  }

  function RenderItems(items: seq<ListItem>, r: Renderer): string
    decreases items
  {
    if items == [] then "" else RenderItem(items[0], r) + RenderItems(items[1..], r)
  }

  function RenderItem(item: ListItem, r: Renderer): string
    decreases item
  {
    r.listitem(Render(item.body, !item.loose, r))
  }

  // ---------- What is rendered ----------

  /** The cells of a row, each with its own alignment. */
  function CellTexts(row: seq<string>, header: bool, align: seq<Option<string>>, r: Renderer): (cells: seq<string>)
    ensures |cells| == |row|
    ensures forall i :: 0 <= i < |row| ==>
              cells[i] == r.tablecell(r.inline(row[i]), header, if i < |align| then align[i] else None)
  {
    seq(|row|, i requires 0 <= i < |row| =>
      r.tablecell(r.inline(row[i]), header, if i < |align| then align[i] else None))
  }

  function RowTexts(rows: seq<seq<string>>, align: seq<Option<string>>, r: Renderer): (all: seq<string>)
    ensures |all| == |rows|
    ensures forall i :: 0 <= i < |rows| ==> all[i] == r.tablerow(Join(CellTexts(rows[i], false, align, r), ""))
  {
    seq(|rows|, i requires 0 <= i < |rows| => r.tablerow(Join(CellTexts(rows[i], false, align, r), "")))
  }

  lemma {:induction false} CellsAre(row: seq<string>, header: bool, align: seq<Option<string>>, r: Renderer)
    ensures Cells(row, header, align, r) == Join(CellTexts(row, header, align, r), "")
  {
    hide Join;
    if row == [] {
      JoinNothing();
    } else {
      var n := |row| - 1;
      CellsAre(row[..n], header, align, r);
      assert CellTexts(row, header, align, r)[..n] == CellTexts(row[..n], header, align, r);
      JoinLast(CellTexts(row, header, align, r));
    }
  }

  lemma JoinNothing()
    ensures Join([], "") == ""
  {
  }

  lemma JoinLast(parts: seq<string>)
    requires parts != []
    ensures Join(parts, "") == Join(parts[..|parts| - 1], "") + parts[|parts| - 1]
  {
    hide Join;
    var n := |parts| - 1;
    JoinAt(parts, "", n);
    JoinNothing();
    assert Join(parts[..n], "") + "" == Join(parts[..n], "");
    assert Join(parts[..n], "") + parts[n] + "" == Join(parts[..n], "") + parts[n];
  }

  lemma {:induction false} RowsAre(rows: seq<seq<string>>, align: seq<Option<string>>, r: Renderer)
    ensures Rows(rows, align, r) == Join(RowTexts(rows, align, r), "")
  {
    hide Join, Cells, CellTexts;
    if rows == [] {
      JoinNothing();
    } else {
      var n := |rows| - 1;
      RowsAre(rows[..n], align, r);
      CellsAre(rows[n], false, align, r);
      assert RowTexts(rows, align, r)[..n] == RowTexts(rows[..n], align, r);
      JoinLast(RowTexts(rows, align, r));
    }
  }

  /** Each kind of leaf goes to its own method of the renderer, inline text lexed, code and preformatted text not. */
  lemma LeavesAre(text: string, depth: nat, lang: Option<string>, header: seq<string>, align: seq<Option<string>>,
                  cells: seq<seq<string>>, r: Renderer)
    ensures RenderLeaf(Heading(depth, text), r) == r.heading(r.inline(text), depth, text)
    ensures RenderLeaf(Code(text, lang), r) == r.code(text, lang) && RenderLeaf(Hr, r) == r.hr
    ensures RenderLeaf(Paragraph(text), r) == r.paragraph(r.inline(text)) && RenderLeaf(Space, r) == ""
    ensures RenderLeaf(Html(true, text), r) == r.html(text)
    ensures RenderLeaf(Html(false, text), r) == r.html(if r.pedantic then text else r.inline(text))
    ensures RenderLeaf(Table(header, align, cells), r) ==
            r.table(r.tablerow(Join(CellTexts(header, true, align, r), "")), Join(RowTexts(cells, align, r), ""))
  {
    CellsAre(header, true, align, r);
    RowsAre(cells, align, r);
  }

  /** A text is a paragraph except in a tight item; texts that follow each other are lines of one text. */
  lemma TextsAre(t: string, u: string, r: Renderer)
    ensures RenderBlock(Quote([Leaf(Text(t))]), r) == r.blockquote(r.paragraph(r.inline(t)))
    ensures RenderItem(ListItem(false, [Leaf(Text(t))]), r) == r.listitem(r.inline(t))
    ensures RenderItem(ListItem(true, [Leaf(Text(t))]), r) == r.listitem(r.paragraph(r.inline(t)))
    ensures Render([Leaf(Text(t)), Leaf(Text(u))], false, r) == r.paragraph(r.inline(t + "\n" + u))
  {
    OneText(t, true, r);
    OneText(t, false, r);
    var both := [Leaf(Text(t)), Leaf(Text(u))];
    assert both[1..] == [Leaf(Text(u))] && [Leaf(Text(u))][1..] == [];
    assert TextRun([Leaf(Text(u))][1..]) == 0 && TextRun(both[1..]) == 1 && TextRun(both) == 2;
    assert both[..2] == both && both[..1] == [Leaf(Text(t))] && both[2..] == [];
    assert Lines(both[..1]) == t && Lines(both) == t + "\n" + u;
    assert r.paragraph(r.inline(Lines(both))) + "" == r.paragraph(r.inline(Lines(both)));
  }

  lemma OneText(t: string, tight: bool, r: Renderer)
    ensures Render([Leaf(Text(t))], tight, r) == if tight then r.inline(t) else r.paragraph(r.inline(t))
  {
    var one := [Leaf(Text(t))];
    assert one[1..] == [] && TextRun(one[1..]) == 0 && TextRun(one) == 1;
    assert one[..1] == one && Lines(one) == t && Render([], tight, r) == "";
    assert one[1..] == [];
  }

  // ---------- Tokens in reverse ----------

  function Reverse(ts: seq<Token>): (r: seq<Token>)
    ensures |r| == |ts|
  {
    if ts == [] then [] else [ts[|ts| - 1]] + Reverse(ts[..|ts| - 1])
  }

  lemma ReverseSnoc(ts: seq<Token>, t: Token)
    ensures Reverse(ts + [t]) == [t] + Reverse(ts)
  {
    assert (ts + [t])[..|ts|] == ts;
  }

  lemma {:induction false} ReverseCons(t: Token, ts: seq<Token>)
    ensures Reverse([t] + ts) == Reverse(ts) + [t]
    decreases |ts|
  {
    if ts == [] {
      assert [t] + ts == [] + [t];
      ReverseSnoc([], t);
      assert [t] + [] == [] + [t];
    } else {
      var n := |ts| - 1;
      var x, front := ts[n], ts[..n];
      ReverseCons(t, front);
      ReverseSnoc([t] + front, x);
      ReverseSnoc(front, x);
      hide Reverse;
      assert ts == front + [x];
      assert [t] + ts == [t] + front + [x];
      assert [x] + (Reverse(front) + [t]) == [x] + Reverse(front) + [t];
    }
  }

  lemma {:induction false} ReverseTwice(ts: seq<Token>)
    ensures Reverse(Reverse(ts)) == ts
    decreases |ts|
  {
    if ts != [] {
      var n := |ts| - 1;
      ReverseCons(ts[n], Reverse(ts[..n]));
      ReverseTwice(ts[..n]);
    }
  }

  // ---------- First tokens ----------

  /** What may follow a list of blocks: nothing, or the end token of what encloses it. */
  predicate Closes(end: seq<Token>) { end == [] || IsEnd(end[0]) }

  /** The token that a list of blocks begins with. */
  lemma FirstToken(blocks: seq<Block>, end: seq<Token>)
    requires Proper(blocks) && Closes(end) && Flatten(blocks) + end != []
    ensures var first := (Flatten(blocks) + end)[0];
            (IsEnd(first) <==> blocks == []) && (first.Text? <==> blocks != [] && IsText(blocks[0]))
    ensures blocks != [] ==> ProperBlock(blocks[0]) && Proper(blocks[1..]) &&
                             Flatten(blocks) + end == FlatBlock(blocks[0]) + (Flatten(blocks[1..]) + end)
  {
    if blocks != [] {
      FlatFirst(blocks[0]);
      hide FlatBlock, ProperBlock, IsEnd;
      var flat, rest := FlatBlock(blocks[0]), Flatten(blocks[1..]) + end;
      assert Flatten(blocks) == flat + Flatten(blocks[1..]);
      assert flat + Flatten(blocks[1..]) + end == flat + rest;
      assert (flat + rest)[0] == flat[0];
    } else {
      assert [] + end == end;
    }
  }

  lemma FlatFirst(b: Block)
    requires ProperBlock(b)
    ensures !IsEnd(FlatBlock(b)[0]) && (FlatBlock(b)[0].Text? <==> IsText(b))
  {
    hide Flatten, FlatItems, Proper, ProperItems;
  }

  lemma TextRunCons(blocks: seq<Block>)
    requires blocks != [] && IsText(blocks[0])
    ensures TextRun(blocks) == 1 + TextRun(blocks[1..])
  {
  }

  lemma LinesSnoc(blocks: seq<Block>, k: nat)
    requires 0 < k < |blocks| && forall i :: 0 <= i <= k ==> IsText(blocks[i])
    ensures Lines(blocks[..k + 1]) == Lines(blocks[..k]) + "\n" + blocks[k].token.text
  {
    assert blocks[..k + 1][..k] == blocks[..k];
  }

  lemma FlatText(blocks: seq<Block>)
    requires blocks != [] && IsText(blocks[0])
    ensures Flatten(blocks) == [blocks[0].token] + Flatten(blocks[1..])
  {
  }

  lemma {:induction false} ProperDrop(blocks: seq<Block>, k: nat)
    requires Proper(blocks) && k <= |blocks|
    ensures Proper(blocks[k..])
    decreases k
  {
    hide ProperBlock;
    if k == 0 {
      assert blocks[0..] == blocks;
    } else {
      ProperDrop(blocks[1..], k - 1);
      assert blocks[1..][k - 1..] == blocks[k..];
    }
  }

  lemma LinesOne(blocks: seq<Block>)
    requires blocks != [] && IsText(blocks[0])
    ensures Lines(blocks[..1]) == blocks[0].token.text
  {
  }

  /** Where the run of texts ends, no text token comes next. */
  lemma RunEnds(blocks: seq<Block>, end: seq<Token>, ahead: seq<Token>)
    requires Proper(blocks) && Closes(end) && ahead == Flatten(blocks) + end && (ahead == [] || !ahead[0].Text?)
    ensures TextRun(blocks) == 0
  {
    if blocks != [] {
      FirstToken(blocks, end);
    }
  }

  /** The first group of blocks, rendered. */
  function First(blocks: seq<Block>, tight: bool, r: Renderer): string
    requires blocks != []
  {
    if IsText(blocks[0]) then
      TextRunCons(blocks);
      var text := r.inline(Lines(blocks[..TextRun(blocks)]));
      if tight then text else r.paragraph(text)
    else RenderBlock(blocks[0], r)
  }

  lemma RenderStep(blocks: seq<Block>, tight: bool, r: Renderer)
    requires blocks != []
    ensures Render(blocks, tight, r) == First(blocks, tight, r) + Render(blocks[Group(blocks)..], tight, r)
  {
    hide RenderBlock, Lines;
  }

  /** The tokens of a block and what follows them. */
  lemma BlockAhead(b: Block, rest: seq<Token>)
    requires ProperBlock(b)
    ensures var ahead := FlatBlock(b) + rest;
            match b
            case Leaf(t) => IsLeaf(t) && ahead[0] == t && ahead[1..] == rest
            case Quote(body) =>
              Proper(body) && ahead[0] == BlockquoteStart && ahead[1..] == Flatten(body) + ([BlockquoteEnd] + rest)
            case List(ordered, items) =>
              ProperItems(items) && ahead[0] == ListStart(ordered) &&
                ahead[1..] == FlatItems(items) + ([ListEnd] + rest)
  {
    hide Flatten, FlatItems, Proper, ProperItems;
    match b
    case Leaf(t) =>
    case Quote(body) => FirstOf(BlockquoteStart, Flatten(body), [BlockquoteEnd], rest);
    case List(ordered, items) => FirstOf(ListStart(ordered), FlatItems(items), [ListEnd], rest);
  }

  lemma FirstOf<T>(first: T, a: seq<T>, b: seq<T>, rest: seq<T>)
    ensures ([first] + a + b + rest)[0] == first && ([first] + a + b + rest)[1..] == a + (b + rest)
  {
  }

  lemma BodyEnds(blocks: seq<Block>, end: seq<Token>, tight: bool, r: Renderer)
    requires Proper(blocks) && end != [] && IsEnd(end[0]) && IsEnd((Flatten(blocks) + end)[0])
    ensures blocks == [] && Flatten(blocks) + end == end && Render(blocks, tight, r) == ""
  {
    FirstToken(blocks, end);
    assert [] + end == end;
  }

  lemma BodyGoesOn(blocks: seq<Block>, end: seq<Token>)
    requires Proper(blocks) && end != [] && IsEnd(end[0]) && (Flatten(blocks) + end)[0] != end[0]
    ensures blocks != [] && ((Flatten(blocks) + end)[0].Text? <==> IsText(blocks[0]))
  {
    FirstToken(blocks, end);
    assert [] + end == end;
  }

  lemma ItemAhead(items: seq<ListItem>, rest: seq<Token>, r: Renderer)
    requires ProperItems(items) && (FlatItems(items) + ([ListEnd] + rest))[0] != ListEnd
    ensures items != [] && Proper(items[0].body) && ProperItems(items[1..])
    ensures var ahead := FlatItems(items) + ([ListEnd] + rest);
            ahead[0] == (if items[0].loose then LooseItemStart else ListItemStart) &&
            ahead[1..] == Flatten(items[0].body) + ([ListItemEnd] + (FlatItems(items[1..]) + ([ListEnd] + rest)))
    ensures RenderItems(items, r) == r.listitem(Render(items[0].body, !items[0].loose, r)) + RenderItems(items[1..], r)
  {
    hide Flatten, Render;
    ItemFirst(items, rest);
    hide FlatItem;
    ItemParts(items[0], FlatItems(items[1..]) + ([ListEnd] + rest));
    assert FlatItem(items[0]) + FlatItems(items[1..]) + ([ListEnd] + rest) ==
           FlatItem(items[0]) + (FlatItems(items[1..]) + ([ListEnd] + rest));
  }

  lemma ItemParts(item: ListItem, after: seq<Token>)
    ensures var ahead := FlatItem(item) + after;
            ahead[0] == (if item.loose then LooseItemStart else ListItemStart) &&
              ahead[1..] == Flatten(item.body) + ([ListItemEnd] + after)
  {
    hide Flatten;
  }

  lemma ItemsEnd(items: seq<ListItem>, rest: seq<Token>, r: Renderer)
    requires (FlatItems(items) + ([ListEnd] + rest))[0] == ListEnd
    ensures items == [] && FlatItems(items) + ([ListEnd] + rest) == [ListEnd] + rest && RenderItems(items, r) == ""
  {
    hide Flatten, Render;
    ItemFirst(items, rest);
  }

  lemma ItemFirst(items: seq<ListItem>, rest: seq<Token>)
    ensures (FlatItems(items) + ([ListEnd] + rest))[0] == ListEnd <==> items == []
  {
    hide Flatten;
    if items != [] {
      assert FlatItem(items[0])[0] != ListEnd;
    }
  }

  lemma ParseEnds(blocks: seq<Block>, r: Renderer)
    requires Flatten(blocks) == []
    ensures blocks == [] && Render(blocks, false, r) == ""
  {
    FlattenEmpty(blocks);
  }

  lemma FlattenEmpty(blocks: seq<Block>)
    ensures Flatten(blocks) == [] <==> blocks == []
  {
    hide FlatBlock;
    if blocks != [] {
      assert |Flatten(blocks)| == |FlatBlock(blocks[0])| + |Flatten(blocks[1..])|;
    }
  }

  // ---------- The parser ----------

  class Parser {
    const renderer: Renderer
    var tokens: seq<Token>
    var token: Token

    constructor (renderer: Renderer)
      ensures this.renderer == renderer && tokens == []
    {
      this.renderer := renderer;
      tokens, token := [], Space;
    }

    /** The tokens still to come, in order. */
    ghost function Rest(): seq<Token>
      reads this
    {
      Reverse(tokens)
    }

    /** The current token and the ones to come. */
    ghost function Ahead(): seq<Token>
      reads this
    {
      [token] + Reverse(tokens)
    }

    method Next()
      requires tokens != []
      modifies this
      ensures |tokens| == |old(tokens)| - 1 && old(Rest()) == Ahead()
    {
      token := tokens[|tokens| - 1];
      tokens := tokens[..|tokens| - 1];
    }

    /** Consecutive text tokens become one text. */
    method ParseText(ghost blocks: seq<Block>, ghost end: seq<Token>) returns (out: string)
      requires blocks != [] && IsText(blocks[0]) && Proper(blocks) && Closes(end) && Ahead() == Flatten(blocks) + end
      modifies this
      ensures out == First(blocks, true, renderer) && Rest() == Flatten(blocks[Group(blocks)..]) + end
      ensures |tokens| <= |old(tokens)|
    {
      hide Flatten, Proper, Lines;
      FlatText(blocks);
      assert Ahead()[0] == token && Rest() == Ahead()[1..];
      var body := token.text;
      ghost var k: nat := 1;
      TextRunCons(blocks);
      LinesOne(blocks);
      ProperDrop(blocks, 1);
      while tokens != [] && tokens[|tokens| - 1].Text?
        invariant 1 <= k <= TextRun(blocks) && TextRun(blocks) == k + TextRun(blocks[k..])
        invariant body == Lines(blocks[..k]) && Proper(blocks[k..]) && Rest() == Flatten(blocks[k..]) + end
        invariant |tokens| <= |old(tokens)|
        decreases |tokens|
      {
        assert Rest()[0] == tokens[|tokens| - 1];
        FirstToken(blocks[k..], end);
        FlatText(blocks[k..]);
        TextRunCons(blocks[k..]);
        LinesSnoc(blocks, k);
        ProperDrop(blocks[k..], 1);
        assert blocks[k..][1..] == blocks[k + 1..];
        ghost var before := Rest();
        Next();
        assert before[0] == token && Rest() == before[1..];
        body := body + "\n" + token.text;
        k := k + 1;
      }
      if tokens != [] {
        assert Rest()[0] == tokens[|tokens| - 1];
      }
      RunEnds(blocks[k..], end, Rest());
      out := renderer.inline(body);
    }

    /** Renders the block the current token starts; a run of texts is one paragraph. */
    method Tok(ghost blocks: seq<Block>, ghost end: seq<Token>) returns (out: string)
      requires blocks != [] && Proper(blocks) && Closes(end) && Ahead() == Flatten(blocks) + end
      modifies this
      ensures out == First(blocks, false, renderer) && Rest() == Flatten(blocks[Group(blocks)..]) + end
      ensures |tokens| <= |old(tokens)|
      decreases |tokens|, 1
    {
      hide Flatten, Proper, Render, RenderItems, FlatItems, ProperItems, Cells, Rows, Lines, RenderLeaf;
      ghost var rest := Flatten(blocks[1..]) + end;
      FirstToken(blocks, end);
      BlockAhead(blocks[0], rest);
      assert Ahead()[0] == token && Rest() == Ahead()[1..];
      if token.Text? {
        var text := ParseText(blocks, end);
        out := renderer.paragraph(text);
      } else if token.BlockquoteStart? {
        var body := BodyUntil(BlockquoteEnd, false, blocks[0].body, rest);
        out := renderer.blockquote(body);
      } else if token.ListStart? {
        var ordered := token.ordered;
        var body := ItemsUntil(blocks[0].items, rest);
        out := renderer.list(body, ordered);
      } else {
        out := LeafOut();
      }
    }

    method LeafOut() returns (out: string)
      requires IsLeaf(token) && !token.Text?
      ensures out == RenderLeaf(token, renderer)
    {
      match token
      case Table(header, align, cells) =>
        var cell := "";
        for i := 0 to |header|
          invariant cell == Cells(header[..i], true, align, renderer)
        {
          assert header[..i + 1][..i] == header[..i];
          cell := cell + renderer.tablecell(renderer.inline(header[i]), true, AlignAt(align, i));
        }
        assert header[..|header|] == header;
        var head := renderer.tablerow(cell);
        var body := "";
        for i := 0 to |cells|
          invariant body == Rows(cells[..i], align, renderer)
        {
          assert cells[..i + 1][..i] == cells[..i];
          var row := cells[i];
          cell := "";
          for j := 0 to |row|
            invariant cell == Cells(row[..j], false, align, renderer)
          {
            assert row[..j + 1][..j] == row[..j];
            cell := cell + renderer.tablecell(renderer.inline(row[j]), false, AlignAt(align, j));
          }
          assert row[..|row|] == row;
          body := body + renderer.tablerow(cell);
        }
        assert cells[..|cells|] == cells;
        out := renderer.table(head, body);
      case Hr => out := renderer.hr;
      case Heading(depth, text) => out := renderer.heading(renderer.inline(text), depth, text);
      case Code(text, lang) => out := renderer.code(text, lang);
      case Html(pre, text) => out := renderer.html(if !pre && !renderer.pedantic then renderer.inline(text) else text);
      case Paragraph(text) => out := renderer.paragraph(renderer.inline(text));
      case _ => out := "";
    }

    /** `while (this.next().type !== end)`: the loop of blockquotes and items; in a tight item texts are not
        paragraphs. */
    method BodyUntil(endToken: Token, tight: bool, ghost blocks: seq<Block>, ghost rest: seq<Token>)
      returns (body: string)
      requires IsEnd(endToken) && Proper(blocks) && Rest() == Flatten(blocks) + ([endToken] + rest)
      modifies this
      ensures body == Render(blocks, tight, renderer) && Rest() == rest && |tokens| <= |old(tokens)|
      decreases |tokens|, 0
    {
      hide Flatten, Proper, Render, First;
      ghost var end := [endToken] + rest;
      body := "";
      ghost var k: nat := 0;
      assert blocks[0..] == blocks && "" + Render(blocks, tight, renderer) == Render(blocks, tight, renderer);
      assert |Rest()| > 0;
      Next();
      while token != endToken
        invariant k <= |blocks| && Proper(blocks[k..]) && Ahead() == Flatten(blocks[k..]) + end
        invariant body + Render(blocks[k..], tight, renderer) == Render(blocks, tight, renderer)
        invariant |tokens| < |old(tokens)|
        decreases |tokens|
      {
        assert Ahead()[0] == token;
        BodyGoesOn(blocks[k..], end);
        RenderStep(blocks[k..], tight, renderer);
        ghost var n := Group(blocks[k..]);
        ghost var more := Render(blocks[k + n..], tight, renderer);
        var out;
        if tight && token.Text? {
          out := ParseText(blocks[k..], end);
        } else {
          FirstLoose(blocks[k..], tight, renderer);
          out := Tok(blocks[k..], end);
        }
        assert blocks[k..][n..] == blocks[k + n..];
        ProperDrop(blocks[k..], n);
        assert body + (out + more) == body + out + more;
        body := body + out;
        k := k + n;
        assert |Rest()| > 0;
        Next();
      }
      assert Ahead()[0] == token;
      BodyEnds(blocks[k..], end, tight, renderer);
      assert body + "" == body;
      assert Rest() == Ahead()[1..];
    }

    method ItemsUntil(ghost items: seq<ListItem>, ghost rest: seq<Token>) returns (body: string)
      requires ProperItems(items) && Rest() == FlatItems(items) + ([ListEnd] + rest)
      modifies this
      ensures body == RenderItems(items, renderer) && Rest() == rest && |tokens| <= |old(tokens)|
      decreases |tokens|, 0
    {
      hide Flatten, Proper, Render, FlatItems, ProperItems, RenderItems;
      ghost var end := [ListEnd] + rest;
      body := "";
      ghost var k: nat := 0;
      assert items[0..] == items && "" + RenderItems(items, renderer) == RenderItems(items, renderer);
      assert |Rest()| > 0;
      Next();
      while token != ListEnd
        invariant k <= |items| && ProperItems(items[k..]) && Ahead() == FlatItems(items[k..]) + end
        invariant body + RenderItems(items[k..], renderer) == RenderItems(items, renderer)
        invariant |tokens| < |old(tokens)|
        decreases |tokens|
      {
        assert Ahead()[0] == token && Rest() == Ahead()[1..];
        ItemAhead(items[k..], rest, renderer);
        assert items[k..][1..] == items[k + 1..] && items[k..][0] == items[k];
        ghost var more := RenderItems(items[k + 1..], renderer);
        var inner := BodyUntil(ListItemEnd, token == ListItemStart, items[k].body, FlatItems(items[k + 1..]) + end);
        var out := renderer.listitem(inner);
        assert body + (out + more) == body + out + more;
        body := body + out;
        k := k + 1;
        assert |Rest()| > 0;
        Next();
      }
      assert Ahead()[0] == token;
      ItemsEnd(items[k..], rest, renderer);
      assert body + "" == body;
      assert Rest() == Ahead()[1..];
    }

    /** Parses the tokens of a block tree: every token is used, none is asked for past the end, and the result is the
        fold of the tree. */
    method Parse(src: seq<Token>, ghost blocks: seq<Block>) returns (out: string)
      requires Proper(blocks) && src == Flatten(blocks)
      modifies this
      ensures out == Render(blocks, false, renderer) && tokens == []
    {
      hide Flatten, Proper, Render, First;
      tokens := Reverse(src);
      ReverseTwice(src);
      out := "";
      ghost var k: nat := 0;
      assert blocks[0..] == blocks && "" + Render(blocks, false, renderer) == Render(blocks, false, renderer);
      assert src + [] == src;
      while tokens != []
        invariant k <= |blocks| && Proper(blocks[k..]) && Rest() == Flatten(blocks[k..]) + []
        invariant out + Render(blocks[k..], false, renderer) == Render(blocks, false, renderer)
        decreases |tokens|
      {
        Next();
        FirstToken(blocks[k..], []);
        NothingFlat();
        RenderStep(blocks[k..], false, renderer);
        ghost var n := Group(blocks[k..]);
        ghost var more := Render(blocks[k + n..], false, renderer);
        assert blocks[k..][n..] == blocks[k + n..];
        ProperDrop(blocks[k..], n);
        var one := Tok(blocks[k..], []);
        assert out + (one + more) == out + one + more;
        out := out + one;
        k := k + n;
      }
      assert Flatten(blocks[k..]) == Flatten(blocks[k..]) + [];
      ParseEnds(blocks[k..], renderer);
      assert out + "" == out;
    }
  }

  lemma NothingFlat()
    ensures Flatten([]) == []
  {
  }

  /** Outside a run of texts, tight and loose rendering agree. */
  lemma FirstLoose(blocks: seq<Block>, tight: bool, r: Renderer)
    requires blocks != [] && !(tight && IsText(blocks[0]))
    ensures First(blocks, tight, r) == First(blocks, false, r)
  {
  }
}
