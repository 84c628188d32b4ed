/** marked's block tokens and the block trees they flatten. */
module MarkedBlocks {
  import opened Wrappers

  datatype Token =
    | Space
    | Hr
    | Heading(depth: nat, text: string)
    | Code(text: string, lang: Option<string>)
    | Table(header: seq<string>, align: seq<Option<string>>, cells: seq<seq<string>>)
    | Html(pre: bool, text: string)
    | Paragraph(text: string)
    | Text(text: string)
    | BlockquoteStart
    | BlockquoteEnd
    | ListStart(ordered: bool)
    | ListEnd
    | ListItemStart
    | LooseItemStart
    | ListItemEnd

  /** A token that stands for a whole block. */
  predicate IsLeaf(t: Token) {
    t.Space? || t.Hr? || t.Heading? || t.Code? || t.Table? || t.Html? || t.Paragraph? || t.Text?
  }

  predicate IsEnd(t: Token) { t.BlockquoteEnd? || t.ListEnd? || t.ListItemEnd? }

  datatype Block = Leaf(token: Token) | Quote(body: seq<Block>) | List(ordered: bool, items: seq<ListItem>)

  datatype ListItem = ListItem(loose: bool, body: seq<Block>)

  function Flatten(blocks: seq<Block>): seq<Token>
    decreases blocks
  {
    if blocks == [] then [] else FlatBlock(blocks[0]) + Flatten(blocks[1..])
  }

  function FlatBlock(b: Block): (r: seq<Token>)
    ensures r != []
    decreases b
  {
    match b
    case Leaf(t) => [t]
    case Quote(body) => [BlockquoteStart] + Flatten(body) + [BlockquoteEnd]
    case List(ordered, items) => [ListStart(ordered)] + FlatItems(items) + [ListEnd]
  }

  function FlatItems(items: seq<ListItem>): seq<Token>
    decreases items
  {
    if items == [] then [] else FlatItem(items[0]) + FlatItems(items[1..])
  }

  function FlatItem(item: ListItem): (r: seq<Token>)
    ensures r != []
    decreases item
  {
    [if item.loose then LooseItemStart else ListItemStart] + Flatten(item.body) + [ListItemEnd]
  }

  /** The leaves of a tree are leaf tokens. */
  predicate Proper(blocks: seq<Block>)
    decreases blocks
  {
    blocks == [] || (ProperBlock(blocks[0]) && Proper(blocks[1..]))
  }

  predicate ProperBlock(b: Block)
    decreases b
  {
    match b
    case Leaf(t) => IsLeaf(t)
    case Quote(body) => Proper(body)
    case List(_, items) => ProperItems(items)
  }

  predicate ProperItems(items: seq<ListItem>)
    decreases items
  {
    items == [] || (Proper(items[0].body) && ProperItems(items[1..]))
  }

  /** Every list of the tree has an item. */
  predicate Filled(blocks: seq<Block>)
    decreases blocks
  {
    blocks == [] || (FilledBlock(blocks[0]) && Filled(blocks[1..]))
  }

  predicate FilledBlock(b: Block)
    decreases b
  {
    match b
    case Leaf(_) => true
    case Quote(body) => Filled(body)
    case List(_, items) => items != [] && FilledItems(items)
  }

  predicate FilledItems(items: seq<ListItem>)
    decreases items
  {
    items == [] || (Filled(items[0].body) && FilledItems(items[1..]))
  }

  lemma {:induction false} FlattenConcat(a: seq<Block>, b: seq<Block>)
    ensures Flatten(a + b) == Flatten(a) + Flatten(b)
    ensures Proper(a + b) <==> Proper(a) && Proper(b)
    ensures Filled(a + b) <==> Filled(a) && Filled(b)
    decreases |a|
  {
    hide FlatBlock, ProperBlock, FilledBlock;
    if a == [] {
      assert a + b == b;
    } else {
      assert (a + b)[1..] == a[1..] + b;
      FlattenConcat(a[1..], b);
      assert FlatBlock(a[0]) + (Flatten(a[1..]) + Flatten(b)) == FlatBlock(a[0]) + Flatten(a[1..]) + Flatten(b);
    }
  }

  // ---------- Nesting of tokens ----------

  datatype Opener = InQuote | InList | InItem

  /** The start tokens still open after the tokens; None at an end token that does not match. */
  function Nesting(ts: seq<Token>, open: seq<Opener>): Option<seq<Opener>>
    decreases |ts|
  {
    if ts == [] then Some(open) else
      var rest := ts[1..];
      match ts[0]
      case BlockquoteStart => Nesting(rest, [InQuote] + open)
      case ListStart(_) => Nesting(rest, [InList] + open)
      case ListItemStart => if open != [] && open[0].InList? then Nesting(rest, [InItem] + open) else None
      case LooseItemStart => if open != [] && open[0].InList? then Nesting(rest, [InItem] + open) else None
      case BlockquoteEnd => if open != [] && open[0].InQuote? then Nesting(rest, open[1..]) else None
      case ListEnd => if open != [] && open[0].InList? then Nesting(rest, open[1..]) else None
      case ListItemEnd => if open != [] && open[0].InItem? then Nesting(rest, open[1..]) else None
      case _ => if open != [] && open[0].InList? then None else Nesting(rest, open)
  }

  lemma {:induction false} NestingConcat(a: seq<Token>, b: seq<Token>, open: seq<Opener>)
    ensures Nesting(a + b, open) == if Nesting(a, open).None? then None else Nesting(b, Nesting(a, open).value)
    decreases |a|
  {
    if a == [] {
      assert a + b == b;
    } else {
      assert (a + b)[1..] == a[1..] + b;
      match a[0]
      case BlockquoteStart => NestingConcat(a[1..], b, [InQuote] + open);
      case ListStart(_) => NestingConcat(a[1..], b, [InList] + open);
      case ListItemStart => NestingConcat(a[1..], b, [InItem] + open);
      case LooseItemStart => NestingConcat(a[1..], b, [InItem] + open);
      case BlockquoteEnd =>
        if open != [] {
          NestingConcat(a[1..], b, open[1..]);
        }
      case ListEnd =>
        if open != [] {
          NestingConcat(a[1..], b, open[1..]);
        }
      case ListItemEnd =>
        if open != [] {
          NestingConcat(a[1..], b, open[1..]);
        }
      case _ => NestingConcat(a[1..], b, open);
    }
  }

  lemma NestingOne(t: Token, open: seq<Opener>)
    ensures Nesting([t], open) ==
      match t
      case BlockquoteStart => Some([InQuote] + open)
      case ListStart(_) => Some([InList] + open)
      case ListItemStart => if open != [] && open[0].InList? then Some([InItem] + open) else None
      case LooseItemStart => if open != [] && open[0].InList? then Some([InItem] + open) else None
      case BlockquoteEnd => if open != [] && open[0].InQuote? then Some(open[1..]) else None
      case ListEnd => if open != [] && open[0].InList? then Some(open[1..]) else None
      case ListItemEnd => if open != [] && open[0].InItem? then Some(open[1..]) else None
      case _ => if open != [] && open[0].InList? then None else Some(open)
  {
    var ts := [t];
    assert ts[1..] == [];
    assert forall o :: Nesting(ts[1..], o) == Some(o);
  }

  /** Blocks may stand anywhere but directly in a list. */
  predicate BlocksAllowed(open: seq<Opener>) { open == [] || !open[0].InList? }

  /** The tokens of a block tree are well nested, with items exactly inside lists. */
  lemma {:induction false} FlattenNested(blocks: seq<Block>, open: seq<Opener>)
    requires Proper(blocks) && BlocksAllowed(open)
    ensures Nesting(Flatten(blocks), open) == Some(open)
    decreases blocks
  {
    if blocks != [] {
      BlockNested(blocks[0], open);
      FlattenNested(blocks[1..], open);
      NestingConcat(FlatBlock(blocks[0]), Flatten(blocks[1..]), open);
    }
  }

  lemma {:induction false} BlockNested(b: Block, open: seq<Opener>)
    requires ProperBlock(b) && BlocksAllowed(open)
    ensures Nesting(FlatBlock(b), open) == Some(open)
    decreases b
  {
    hide Nesting;
    match b
    case Leaf(t) => NestingOne(t, open);
    case Quote(body) =>
      FlattenNested(body, [InQuote] + open);
      NestingOne(BlockquoteStart, open);
      NestingOne(BlockquoteEnd, [InQuote] + open);
      assert ([InQuote] + open)[1..] == open;
      Bracketed(BlockquoteStart, Flatten(body), BlockquoteEnd, open, InQuote);
    case List(ordered, items) =>
      ItemsNested(items, [InList] + open);
      NestingOne(ListStart(ordered), open);
      NestingOne(ListEnd, [InList] + open);
      assert ([InList] + open)[1..] == open;
      Bracketed(ListStart(ordered), FlatItems(items), ListEnd, open, InList);
  }

  lemma Bracketed(start: Token, inner: seq<Token>, end: Token, open: seq<Opener>, o: Opener)
    requires Nesting([start], open) == Some([o] + open) && Nesting(inner, [o] + open) == Some([o] + open)
    requires Nesting([end], [o] + open) == Some(open)
    ensures Nesting([start] + inner + [end], open) == Some(open)
  {
    hide Nesting;
    NestingConcat([start], inner, open);
    NestingConcat([start] + inner, [end], open);
  }

  lemma {:induction false} ItemsNested(items: seq<ListItem>, open: seq<Opener>)
    requires ProperItems(items) && open != [] && open[0].InList?
    ensures Nesting(FlatItems(items), open) == Some(open)
    decreases items
  {
    hide Nesting;
    if items == [] {
      NestingNone(open);
    } else {
      FlattenNested(items[0].body, [InItem] + open);
      var start := if items[0].loose then LooseItemStart else ListItemStart;
      NestingOne(start, open);
      NestingOne(ListItemEnd, [InItem] + open);
      assert ([InItem] + open)[1..] == open;
      Bracketed(start, Flatten(items[0].body), ListItemEnd, open, InItem);
      ItemsNested(items[1..], open);
      NestingConcat(FlatItem(items[0]), FlatItems(items[1..]), open);
    }
  }

  lemma NestingNone(open: seq<Opener>)
    ensures Nesting([], open) == Some(open)
  {
  }

}
