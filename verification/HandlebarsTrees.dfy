/** What the opcodes of Handlebars 1.0.0 build: run on one stack of expressions, as the comments
    of the opcodes describe it, they leave the expressions that the syntax tree denotes. */
module HandlebarsTrees {
  import opened Wrappers
  import opened HandlebarsDepths

  // ---------- Expressions ----------

  /** An argument; in stringParams mode with its type and its context. */
  datatype Argument = Argument(value: Tree, typ: Option<Tree>, context: Option<Tree>)

  datatype Entry = Entry(key: string, value: Argument)

  /** `fn` and `inverse` of a call's options: both left out, or both set with a no-op for a missing one. */
  datatype Programs = Neither | Both(fn: Passed, inverse: Passed)

  datatype Passed = Noop | Numbered(guid: nat)

  datatype CallOptions = CallOptions(hash: seq<Entry>, programs: Programs)

  datatype Tree =
    | Context(depth: nat)
    | Member(base: Tree, name: string)
    | DataFrame
    | Quoted(text: string)
    | Raw(text: string)
    | ProgramOf(guid: Option<nat>)
    | HashOf(entries: seq<Entry>)
    | Lambda(fn: Tree)
    | KnownCall(name: string, params: seq<Argument>, options: CallOptions)
    | HelperCall(name: string, params: seq<Argument>, options: CallOptions, fallback: nat)
    | AmbiguousCall(name: string, options: CallOptions, isBlock: bool, fallback: nat)
    | BlockMissing(value: Tree, options: CallOptions)
    | BlockUnlessCalled(value: Tree)
    | PartialCall(name: string, context: Tree)

  datatype Line = AppendLine(value: Tree) | EscapedLine(value: Tree) | ContentLine(text: string)

  // ---------- The machine ----------

  /** The stack, the hash being filled, the context got last, and what has been appended. */
  datatype State = State(stack: seq<Tree>, hash: Option<seq<Entry>>, last: nat, lines: seq<Line>)

  function Push(s: State, t: Tree): State { s.(stack := s.stack + [t]) }

  function Pop(s: State): Option<(Tree, State)> {
    if s.stack == [] then None
    else Some((s.stack[|s.stack| - 1], s.(stack := s.stack[..|s.stack| - 1])))
  }

  /** A value, and in stringParams mode the type and the context under it. */
  function PopArgument(s: State, o: Options): Option<(Argument, State)> {
    var value := Pop(s);
    if value.None? then None
    else if !o.stringParams then Some((Argument(value.value.0, None, None), value.value.1))
    else
      var typ := Pop(value.value.1);
      if typ.None? then None else
        var context := Pop(typ.value.1);
        if context.None? then None
        else Some((Argument(value.value.0, Some(typ.value.0), Some(context.value.0)), context.value.1))
  }

  /** The parameters in the order they are popped. */
  function PopArguments(s: State, n: nat, o: Options): Option<(seq<Argument>, State)>
    decreases n
  {
    if n == 0 then Some(([], s)) else
      var first := PopArgument(s, o);
      if first.None? then None else
        var rest := PopArguments(first.value.1, n - 1, o);
        if rest.None? then None else Some(([first.value.0] + rest.value.0, rest.value.1))
  }

  function OrNoop(guid: Option<nat>): Passed { if guid.Some? then Numbered(guid.value) else Noop }

  datatype Setup = Setup(params: seq<Argument>, options: CallOptions, rest: State)

  /** setupParams: the hash, the inverse and the program come off first, then the parameters. */
  function SetupParams(s: State, n: nat, o: Options): Option<Setup> {
    var hash := Pop(s);
    if hash.None? || !hash.value.0.HashOf? then None else
      var inverse := Pop(hash.value.1);
      if inverse.None? || !inverse.value.0.ProgramOf? then None else
        var program := Pop(inverse.value.1);
        if program.None? || !program.value.0.ProgramOf? then None else
          var fn, other := program.value.0.guid, inverse.value.0.guid;
          var programs := if fn.None? && other.None? then Neither else Both(OrNoop(fn), OrNoop(other));
          var params := PopArguments(program.value.1, n, o);
          if params.None? then None
          else Some(Setup(params.value.0, CallOptions(hash.value.0.entries, programs), params.value.1))
  }

  function CallStep(s: State, op: Opcode, o: Options): Option<State>
    requires op.InvokeKnownHelper? || op.InvokeHelper? || op.InvokeAmbiguous? || op.BlockValue? ||
             op.AmbiguousBlockValue?
  {
    var n := if op.InvokeKnownHelper? || op.InvokeHelper? then op.paramSize else 0;
    var u := SetupParams(if op.InvokeAmbiguous? then Push(s, HashOf([])) else s, n, o);
    if u.None? then None
    else if op.InvokeKnownHelper? then
      Some(Push(u.value.rest, KnownCall(op.name, u.value.params, u.value.options)))
    else if op.InvokeHelper? then
      Some(Push(u.value.rest, HelperCall(op.name, u.value.params, u.value.options, s.last)))
    else if op.InvokeAmbiguous? then
      Some(Push(u.value.rest, AmbiguousCall(op.name, u.value.options, op.isBlock, s.last)))
    else
      var value := Pop(u.value.rest);
      if value.None? then None
      else if op.BlockValue? then Some(Push(value.value.1, BlockMissing(value.value.0, u.value.options)))
      else Some(Push(value.value.1, BlockUnlessCalled(value.value.0)))
  }

  /** Rewrites the top of the stack. */
  function Rewrap(s: State, f: Tree -> Tree): Option<State> {
    var top := Pop(s);
    if top.None? then None else Some(Push(top.value.1, f(top.value.0)))
  }

  function PopLine(s: State, f: Tree -> Line): Option<State> {
    var top := Pop(s);
    if top.None? then None else Some(top.value.1.(lines := s.lines + [f(top.value.0)]))
  }

  predicate IsText(typ: string) { typ == "ID" || typ == "STRING" }

  function Step(s: State, op: Opcode, o: Options): Option<State> {
    match op
    case GetContext(d) => Some(s.(last := d))
    case LookupOnContext(name) => Some(Push(s, Member(Context(s.last), name)))
    case PushContext => Some(Push(s, Context(s.last)))
    case Lookup(name) => Rewrap(s, t => Member(t, name))
    case LookupData => Some(Push(s, DataFrame))
    case PushString(t) => Some(Push(s, Quoted(t)))
    case PushLiteral(t) => Some(Push(s, Raw(t)))
    case PushDepth0 => Some(Push(s, Context(0)))
    case PushStringParam(value, typ) =>
      Some(Push(Push(Push(s, Context(s.last)), Quoted(typ)), if IsText(typ) then Quoted(value) else Raw(value)))
    case PushProgram(g) => Some(Push(s, ProgramOf(g)))
    case EmptyHash => Some(Push(s, HashOf([])))
    case PushHash => Some(s.(hash := Some([])))
    case AssignToHash(key) =>
      var a := PopArgument(s, o);
      if a.None? || s.hash.None? then None else Some(a.value.1.(hash := Some(s.hash.value + [Entry(key, a.value.0)])))
    case PopHash => if s.hash.None? then None else Some(Push(s.(hash := None), HashOf(s.hash.value)))
    case ResolvePossibleLambda => Rewrap(s, t => Lambda(t))
    case InvokePartial(name) => Rewrap(s, t => PartialCall(name, t))
    case Append => PopLine(s, t => AppendLine(t))
    case AppendEscaped => PopLine(s, t => EscapedLine(t))
    case AppendContent(text) => Some(s.(lines := s.lines + [ContentLine(text)]))
    case _ => CallStep(s, op, o)
  }

  function Run(s: State, ops: seq<Opcode>, o: Options): Option<State>
    decreases |ops|
  {
    if ops == [] then Some(s) else
      var t := Step(s, ops[0], o);
      if t.None? then None else Run(t.value, ops[1..], o)
  }

  lemma {:induction false} RunConcat(s: State, a: seq<Opcode>, b: seq<Opcode>, o: Options)
    ensures Run(s, a + b, o) == (if Run(s, a, o).None? then None else Run(Run(s, a, o).value, b, o))
    decreases |a|
  {
    hide Step;
    if a == [] {
      assert a + b == b;
    } else {
      assert (a + b)[1..] == a[1..] + b;
      if Step(s, a[0], o).Some? {
        RunConcat(Step(s, a[0], o).value, a[1..], b, o);
      }
    }
  }

  lemma RunOne(s: State, op: Opcode, o: Options)
    ensures Run(s, [op], o) == Step(s, op, o)
  {
    hide Step;
    assert [op][1..] == [];
    if Step(s, op, o).Some? {
      assert Run(Step(s, op, o).value, [], o) == Step(s, op, o);
    }
  }

  // ---------- What the syntax tree denotes ----------

  function Members(base: Tree, names: seq<string>): Tree {
    if names == [] then base else Member(Members(base, names[..|names| - 1]), names[|names| - 1])
  }

  /** A path: a context so many levels out, and the names looked up one after the other. */
  function DenoteId(id: Id): Tree {
    Members(Context(id.depth), if id.parts != [] && id.parts[0] == "" then id.parts[1..] else id.parts)
  }

  function DenoteParam(p: Param): Tree {
    match p
    case IdParam(id, _) => DenoteId(id)
    case DataParam(parts, _) => Members(DataFrame, parts)
    case StringParam(t) => Quoted(t)
    case IntegerParam(d) => Raw(d)
    case BooleanParam(t) => Raw(t)
  }

  /** In stringParams mode arguments are not evaluated: the text, the kind and the context are passed. */
  function DenoteArgument(p: Param, o: Options): Argument {
    if !o.stringParams then Argument(DenoteParam(p), None, None) else
      match p
      case IdParam(id, text) => Argument(Quoted(text), Some(Quoted("ID")), Some(Context(id.depth)))
      case DataParam(_, _) => Argument(Raw("undefined"), Some(Quoted("DATA")), Some(Context(0)))
      case StringParam(t) => Argument(Quoted(t), Some(Quoted("STRING")), Some(Context(0)))
      case IntegerParam(d) => Argument(Raw(d), Some(Quoted("INTEGER")), Some(Context(0)))
      case BooleanParam(t) => Argument(Raw(t), Some(Quoted("BOOLEAN")), Some(Context(0)))
  }

  function DenoteArguments(params: seq<Param>, o: Options): (r: seq<Argument>)
    ensures |r| == |params| && forall i :: 0 <= i < |r| ==> r[i] == DenoteArgument(params[i], o)
  {
    seq(|params|, i requires 0 <= i < |params| => DenoteArgument(params[i], o))
  }

  function DenotePairs(pairs: seq<Pair>, o: Options): (r: seq<Entry>)
    ensures |r| == |pairs|
    ensures forall i :: 0 <= i < |r| ==> r[i] == Entry(pairs[i].key, DenoteArgument(pairs[i].value, o))
  {
    seq(|pairs|, i requires 0 <= i < |pairs| => Entry(pairs[i].key, DenoteArgument(pairs[i].value, o)))
  }

  function DenoteHash(hash: Option<seq<Pair>>, o: Options): seq<Entry> {
    if hash.Some? then DenotePairs(hash.value, o) else []
  }

  function DenotePrograms(g: Option<nat>, h: Option<nat>): Programs {
    match (g, h)
    case (None, None) => Neither
    case (Some(x), None) => Both(Numbered(x), Noop)
    case (None, Some(y)) => Both(Noop, Numbered(y))
    case (Some(x), Some(y)) => Both(Numbered(x), Numbered(y))
  }

  predicate HasArguments(m: Mustache) { m.params != [] || m.hash.Some? }

  /** A path of one name in call position, for certain or perhaps the name of a helper; anything else is a value. */
  predicate SurelyHelper(m: Mustache, o: Options)
    requires Regular(m)
  {
    Eligible(m) && (HasArguments(m) || HeadName(m) in o.knownHelpers)
  }

  predicate PerhapsHelper(m: Mustache, o: Options)
    requires Regular(m)
  {
    Eligible(m) && !HasArguments(m) && HeadName(m) !in o.knownHelpers && !o.knownHelpersOnly
  }

  /** What a mustache, or the head of a block, computes; `last` is the context got last before it. */
  function DenoteCall(m: Mustache, g: Option<nat>, h: Option<nat>, o: Options, last: nat): Tree
    requires Regular(m)
  {
    if SurelyHelper(m, o) then
      var options := CallOptions(DenoteHash(m.hash, o), DenotePrograms(g, h));
      if HeadName(m) in o.knownHelpers then KnownCall(HeadName(m), DenoteArguments(m.params, o), options)
      else HelperCall(HeadName(m), DenoteArguments(m.params, o), options, LastOr(PathDepths(m, o), last))
    else if PerhapsHelper(m, o) then
      AmbiguousCall(HeadName(m), CallOptions([], DenotePrograms(g, h)), g.Some? || h.Some?, 0)
    else Lambda(DenoteParam(m.id))
  }

  function DenoteStatement(s: Statement, o: Options, guid: nat, last: nat): seq<Line>
    requires RegularStatement(s)
  {
    match s
    case MustacheStatement(m) =>
      var value := DenoteCall(m, None, None, o, last);
      [if m.escaped && !o.noEscape then EscapedLine(value) else AppendLine(value)]
    case Block(m, program, inverse) =>
      var g := if program.Some? then Some(guid) else None;
      var h := if inverse.Some? then Some(if program.Some? then guid + 1 else guid) else None;
      var value := DenoteCall(m, g, h, o, last);
      [AppendLine(if SurelyHelper(m, o) then value
                  else if PerhapsHelper(m, o) then BlockUnlessCalled(value)
                  else BlockMissing(value, CallOptions([], DenotePrograms(g, h))))]
    case Partial(name, context) =>
      [AppendLine(PartialCall(name, if context.Some? then DenoteId(context.value) else Context(0)))]
    case Content(text) => [ContentLine(text)]
    case Comment => []
  }

  function Programs1(s: Statement): nat {
    if s.Block? then (if s.program.Some? then 1 else 0) + (if s.inverse.Some? then 1 else 0) else 0
  }

  function DenoteBody(body: seq<Statement>, o: Options, guid: nat, last: nat): seq<Line>
    requires RegularBody(body)
  {
    if body == [] then []
    else DenoteStatement(body[0], o, guid, last) +
         DenoteBody(body[1..], o, guid + Programs1(body[0]), LastOr(StatementDepths(body[0], o), last))
  }

  // ---------- The opcodes build what is denoted ----------

  /** The run pushes these expressions, and changes nothing else but the context got last. */
  ghost predicate Pushes(s: State, ops: seq<Opcode>, trees: seq<Tree>, o: Options) {
    Run(s, ops, o) == Some(s.(stack := s.stack + trees, last := LastContext(ops, s.last)))
  }

  lemma PushesConcat(s: State, a: seq<Opcode>, x: seq<Tree>, b: seq<Opcode>, y: seq<Tree>, o: Options)
    requires Pushes(s, a, x, o)
    requires Pushes(s.(stack := s.stack + x, last := LastContext(a, s.last)), b, y, o)
    ensures Pushes(s, a + b, x + y, o)
  {
    hide Run, LastContext;
    RunConcat(s, a, b, o);
    MentionsConcat(a, b, s.last, []);
    assert s.stack + x + y == s.stack + (x + y);
  }

  lemma PushesOne(s: State, op: Opcode, t: Tree, o: Options)
    requires Step(s, op, o) == Some(Push(s, t)) && !op.GetContext?
    ensures Pushes(s, [op], [t], o)
  {
    hide Step;
    RunOne(s, op, o);
    OneMention(op, s.last, []);
  }

  lemma GetPushes(s: State, d: nat, op: Opcode, t: Tree, o: Options)
    requires !op.GetContext? && Step(s.(last := d), op, o) == Some(Push(s.(last := d), t))
    ensures Pushes(s, [GetContext(d), op], [t], o)
  {
    RunOne(s, GetContext(d), o);
    assert Step(s, GetContext(d), o) == Some(s.(last := d));
    hide Step;
    RunConcat(s, [GetContext(d)], [op], o);
    RunOne(s.(last := d), op, o);
    OneGet(d, s.last, []);
    OneMention(op, d, []);
    MentionsConcat([GetContext(d)], [op], s.last, []);
    assert [GetContext(d)] + [op] == [GetContext(d), op];
  }

  /** Opcodes that rewrite the top of the stack. */
  lemma {:induction false} LookupsRun(s: State, base: seq<Tree>, t: Tree, parts: seq<string>, o: Options)
    requires s.stack == base + [t]
    ensures Run(s, Lookups(parts), o) == Some(s.(stack := base + [Members(t, parts)]))
  {
    if parts != [] {
      var n := |parts| - 1;
      LookupsRun(s, base, t, parts[..n], o);
      var mid := s.(stack := base + [Members(t, parts[..n])]);
      RunConcat(s, Lookups(parts[..n]), [Lookup(parts[n])], o);
      RunOne(mid, Lookup(parts[n]), o);
      assert mid.stack[..|mid.stack| - 1] == base;
    }
  }

  lemma PathRun(s: State, ops: seq<Opcode>, t: Tree, parts: seq<string>, o: Options)
    requires Pushes(s, ops, [t], o)
    ensures Pushes(s, ops + Lookups(parts), [Members(t, parts)], o)
  {
    hide Run, LastContext, Lookups;
    var mid := s.(stack := s.stack + [t], last := LastContext(ops, s.last));
    RunConcat(s, ops, Lookups(parts), o);
    LookupsRun(mid, s.stack, t, parts, o);
    LookupsMention(parts, mid.last, []);
    MentionsConcat(ops, Lookups(parts), s.last, []);
  }

  lemma MembersFirst(base: Tree, parts: seq<string>)
    requires parts != []
    ensures Members(base, parts) == Members(Member(base, parts[0]), parts[1..])
    decreases |parts|
  {
    var n := |parts| - 1;
    if n == 0 {
      assert parts[..0] == [] && parts[1..] == [];
    } else {
      MembersFirst(base, parts[..n]);
      assert parts[..n][1..] == parts[1..][..n - 1];
    }
  }

  lemma IdRun(s: State, id: Id, o: Options)
    ensures Pushes(s, VisitId(id).opcodes, [DenoteId(id)], o)
  {
    hide Run, LastContext, Lookups, Members;
    var here := id.parts == [] || id.parts[0] == "";
    var second := if here then PushContext else LookupOnContext(id.parts[0]);
    var t := if here then Context(id.depth) else Member(Context(id.depth), id.parts[0]);
    GetPushes(s, id.depth, second, t, o);
    var rest := if id.parts == [] then [] else id.parts[1..];
    PathRun(s, [GetContext(id.depth), second], t, rest, o);
    NoLookups();
    if !here {
      MembersFirst(Context(id.depth), id.parts);
    }
  }

  lemma NoLookups()
    ensures Lookups([]) == []
  {
  }

  lemma ParamRun(s: State, p: Param, o: Options)
    ensures Pushes(s, VisitParam(p).opcodes, [DenoteParam(p)], o)
  {
    hide Run, LastContext, Lookups, Members, VisitId, DenoteId;
    match p
    case IdParam(id, _) => IdRun(s, id, o);
    case DataParam(parts, _) =>
      PushesOne(s, LookupData, DataFrame, o);
      PathRun(s, [LookupData], DataFrame, parts, o);
    case StringParam(t) => PushesOne(s, PushString(t), Quoted(t), o);
    case IntegerParam(d) => PushesOne(s, PushLiteral(d), Raw(d), o);
    case BooleanParam(t) => PushesOne(s, PushLiteral(t), Raw(t), o);
  }

  /** An argument as it lies on the stack. */
  function Laid(a: Argument): seq<Tree> {
    (if a.context.Some? then [a.context.value] else []) + (if a.typ.Some? then [a.typ.value] else []) + [a.value]
  }

  lemma ArgumentRun(s: State, p: Param, o: Options)
    ensures Pushes(s, VisitArgument(p, o).opcodes, Laid(DenoteArgument(p, o)), o)
  {
    hide Run, LastContext;
    if o.stringParams {
      var d, typ, value := DepthOf(p), TypeName(p), StringModeValue(p);
      var op := PushStringParam(value, typ);
      var mid := s.(last := d);
      var a := DenoteArgument(p, o);
      RunOne(s, GetContext(d), o);
      RunConcat(s, [GetContext(d)], [op], o);
      RunOne(mid, op, o);
      OneGet(d, s.last, []);
      OneMention(op, d, []);
      MentionsConcat([GetContext(d)], [op], s.last, []);
      assert [GetContext(d)] + [op] == VisitArgument(p, o).opcodes;
      assert s.stack + [Context(d)] + [Quoted(typ)] + [a.value] == s.stack + Laid(a);
    } else {
      ParamRun(s, p, o);
      assert Laid(DenoteArgument(p, o)) == [DenoteParam(p)];
    }
  }

  lemma PopTop(s: State, base: seq<Tree>, t: Tree)
    requires s.stack == base + [t]
    ensures Pop(s) == Some((t, s.(stack := base)))
  {
    assert s.stack[..|s.stack| - 1] == base;
  }

  lemma ArgumentPopped(s: State, base: seq<Tree>, p: Param, o: Options)
    requires s.stack == base + Laid(DenoteArgument(p, o))
    ensures PopArgument(s, o) == Some((DenoteArgument(p, o), s.(stack := base)))
  {
    var a := DenoteArgument(p, o);
    ArgumentParts(p, o);
    hide Pop, DenoteArgument;
    if o.stringParams {
      var x, y := base + [a.context.value], base + [a.context.value] + [a.typ.value];
      assert s.stack == y + [a.value];
      PopTop(s, y, a.value);
      PopTop(s.(stack := y), x, a.typ.value);
      PopTop(s.(stack := x), base, a.context.value);
    } else {
      assert s.stack == base + [a.value];
      PopTop(s, base, a.value);
    }
  }

  lemma ArgumentParts(p: Param, o: Options)
    ensures var a := DenoteArgument(p, o);
      (a.typ.Some? <==> o.stringParams) && (a.context.Some? <==> o.stringParams)
  {
    hide DenoteParam;
  }

  /** The parameters on the stack: the last one lowest. */
  function LaidAll(params: seq<Param>, o: Options): seq<Tree> {
    if params == [] then [] else LaidAll(params[1..], o) + Laid(DenoteArgument(params[0], o))
  }

  lemma {:induction false} ParamsRun(s: State, params: seq<Param>, o: Options)
    ensures Pushes(s, VisitParams(params, o).opcodes, LaidAll(params, o), o)
  {
    hide Run, LastContext, VisitArgument, Laid, DenoteArgument;
    if params == [] {
      NothingRun(s, o);
    } else {
      var ops := VisitParams(params[1..], o).opcodes;
      ParamsRun(s, params[1..], o);
      var mid := s.(stack := s.stack + LaidAll(params[1..], o), last := LastContext(ops, s.last));
      ArgumentRun(mid, params[0], o);
      PushesConcat(s, ops, LaidAll(params[1..], o), VisitArgument(params[0], o).opcodes,
                   Laid(DenoteArgument(params[0], o)), o);
    }
  }

  lemma NothingRun(s: State, o: Options)
    ensures Pushes(s, [], [], o)
  {
    assert s.stack + [] == s.stack;
  }

  /** Popped one after the other, the parameters come in source order. */
  lemma {:induction false} ParamsPopped(s: State, base: seq<Tree>, params: seq<Param>, o: Options)
    requires s.stack == base + LaidAll(params, o)
    ensures PopArguments(s, |params|, o) == Some((DenoteArguments(params, o), s.(stack := base)))
    decreases |params|
  {
    hide Laid, DenoteArgument, PopArgument;
    if params == [] {
      assert base + [] == base;
    } else {
      var under := base + LaidAll(params[1..], o);
      var mid := s.(stack := under);
      assert s.stack == under + Laid(DenoteArgument(params[0], o));
      ArgumentPopped(s, under, params[0], o);
      ParamsPopped(mid, base, params[1..], o);
      assert DenoteArguments(params, o) == [DenoteArgument(params[0], o)] + DenoteArguments(params[1..], o);
    }
  }

  /** The pairs are assigned one by one while the hash is open. */
  lemma {:induction false} PairsRun(s: State, pairs: seq<Pair>, o: Options)
    requires s.hash == Some([])
    ensures var ops := VisitPairs(pairs, o).opcodes;
      Run(s, ops, o) == Some(s.(hash := Some(DenotePairs(pairs, o)), last := LastContext(ops, s.last)))
    decreases |pairs|
  {
    hide Run, LastContext, VisitArgument, DenotePairs, DenoteArgument;
    if pairs == [] {
      NoEntries(o);
      NothingRun(s, o);
      assert s.stack + [] == s.stack;
    } else {
      var n := |pairs| - 1;
      var before, value := VisitPairs(pairs[..n], o).opcodes, VisitArgument(pairs[n].value, o).opcodes;
      PairsRun(s, pairs[..n], o);
      var mid := s.(hash := Some(DenotePairs(pairs[..n], o)), last := LastContext(before, s.last));
      PairRun(mid, pairs[n], o);
      RunConcat(s, before, value + [AssignToHash(pairs[n].key)], o);
      MentionsConcat(before, value + [AssignToHash(pairs[n].key)], s.last, []);
      PairAdded(pairs, o);
      assert VisitPairs(pairs, o).opcodes == before + (value + [AssignToHash(pairs[n].key)]);
    }
  }

  lemma NoEntries(o: Options)
    ensures DenotePairs([], o) == []
  {
  }

  lemma PairAdded(pairs: seq<Pair>, o: Options)
    requires pairs != []
    ensures var n := |pairs| - 1;
      DenotePairs(pairs, o) ==
      DenotePairs(pairs[..n], o) + [Entry(pairs[n].key, DenoteArgument(pairs[n].value, o))]
  {
    hide DenoteArgument;
  }

  lemma PairRun(s: State, pair: Pair, o: Options)
    requires s.hash.Some?
    ensures var ops := VisitArgument(pair.value, o).opcodes + [AssignToHash(pair.key)];
      Run(s, ops, o) == Some(s.(hash := Some(s.hash.value + [Entry(pair.key, DenoteArgument(pair.value, o))]),
                                last := LastContext(ops, s.last)))
  {
    hide Run, LastContext, VisitArgument, PopArgument, DenoteArgument, Laid;
    var value := VisitArgument(pair.value, o).opcodes;
    ArgumentRun(s, pair.value, o);
    var mid := s.(stack := s.stack + Laid(DenoteArgument(pair.value, o)), last := LastContext(value, s.last));
    ArgumentPopped(mid, s.stack, pair.value, o);
    RunConcat(s, value, [AssignToHash(pair.key)], o);
    RunOne(mid, AssignToHash(pair.key), o);
    MentionsConcat(value, [AssignToHash(pair.key)], s.last, []);
    OneMention(AssignToHash(pair.key), mid.last, []);
  }

  lemma HashRun(s: State, hash: Option<seq<Pair>>, o: Options)
    requires s.hash.None?
    ensures Pushes(s, VisitHash(hash, o).opcodes, [HashOf(DenoteHash(hash, o))], o)
  {
    hide Run, LastContext, VisitPairs, DenotePairs;
    if hash.None? {
      PushesOne(s, EmptyHash, HashOf([]), o);
    } else {
      var pairs := VisitPairs(hash.value, o).opcodes;
      var open := s.(hash := Some([]));
      RunOne(s, PushHash, o);
      PairsRun(open, hash.value, o);
      var filled := open.(hash := Some(DenotePairs(hash.value, o)), last := LastContext(pairs, s.last));
      RunOne(filled, PopHash, o);
      RunConcat(open, pairs, [PopHash], o);
      RunConcat(s, [PushHash], pairs + [PopHash], o);
      OneMention(PushHash, s.last, []);
      OneMention(PopHash, filled.last, []);
      MentionsConcat(pairs, [PopHash], s.last, []);
      MentionsConcat([PushHash], pairs + [PopHash], s.last, []);
    }
  }

  lemma ProgramsRun(s: State, g: Option<nat>, h: Option<nat>, o: Options)
    ensures Pushes(s, [PushProgram(g), PushProgram(h)], [ProgramOf(g), ProgramOf(h)], o)
  {
    hide Run, LastContext;
    PushesOne(s, PushProgram(g), ProgramOf(g), o);
    OneMention(PushProgram(g), s.last, []);
    PushesOne(s.(stack := s.stack + [ProgramOf(g)]), PushProgram(h), ProgramOf(h), o);
    PushesConcat(s, [PushProgram(g)], [ProgramOf(g)], [PushProgram(h)], [ProgramOf(h)], o);
    assert [PushProgram(g)] + [PushProgram(h)] == [PushProgram(g), PushProgram(h)];
    assert [ProgramOf(g)] + [ProgramOf(h)] == [ProgramOf(g), ProgramOf(h)];
  }

  function Head(g: Option<nat>, h: Option<nat>, entries: seq<Entry>): seq<Tree> {
    [ProgramOf(g), ProgramOf(h), HashOf(entries)]
  }

  lemma ArgumentsRun(s: State, m: Mustache, g: Option<nat>, h: Option<nat>, o: Options)
    requires s.hash.None?
    ensures Pushes(s, VisitArguments(m, g, h, o).opcodes,
                   LaidAll(m.params, o) + Head(g, h, DenoteHash(m.hash, o)), o)
  {
    hide Run, LastContext, VisitParams, VisitHash, LaidAll, DenoteHash;
    var params, hash := VisitParams(m.params, o).opcodes, VisitHash(m.hash, o).opcodes;
    var programs := [PushProgram(g), PushProgram(h)];
    var x, y, z := LaidAll(m.params, o), [ProgramOf(g), ProgramOf(h)], [HashOf(DenoteHash(m.hash, o))];
    ParamsRun(s, m.params, o);
    var s1 := s.(stack := s.stack + x, last := LastContext(params, s.last));
    ProgramsRun(s1, g, h, o);
    var s2 := s1.(stack := s1.stack + y, last := LastContext(programs, s1.last));
    HashRun(s2, m.hash, o);
    PushesConcat(s1, programs, y, hash, z, o);
    PushesConcat(s, params, x, programs + hash, y + z, o);
    assert y + z == Head(g, h, DenoteHash(m.hash, o));
  }

  lemma SetupIs(s: State, base: seq<Tree>, params: seq<Param>, g: Option<nat>, h: Option<nat>, entries: seq<Entry>,
                o: Options)
    requires s.stack == base + LaidAll(params, o) + Head(g, h, entries)
    ensures SetupParams(s, |params|, o) ==
            Some(Setup(DenoteArguments(params, o), CallOptions(entries, DenotePrograms(g, h)), s.(stack := base)))
  {
    hide LaidAll, PopArguments, DenoteArguments;
    var n := |s.stack|;
    assert s.stack[n - 1] == HashOf(entries) && s.stack[n - 2] == ProgramOf(h) && s.stack[n - 3] == ProgramOf(g);
    assert s.stack[..n - 1][..n - 2] == s.stack[..n - 2] && s.stack[..n - 2][..n - 3] == s.stack[..n - 3];
    assert s.stack[..n - 3] == base + LaidAll(params, o);
    ParamsPopped(s.(stack := s.stack[..n - 3]), base, params, o);
  }

  lemma NoParams(o: Options)
    ensures LaidAll([], o) == [] && DenoteArguments([], o) == []
  {
  }

  /** setupParams without parameters. */
  lemma SetupNone(s: State, base: seq<Tree>, g: Option<nat>, h: Option<nat>, entries: seq<Entry>, o: Options)
    requires s.stack == base + Head(g, h, entries)
    ensures SetupParams(s, 0, o) == Some(Setup([], CallOptions(entries, DenotePrograms(g, h)), s.(stack := base)))
  {
    hide LaidAll, SetupParams, DenoteArguments, DenotePrograms;
    NoParams(o);
    assert base + [] + Head(g, h, entries) == base + Head(g, h, entries);
    SetupIs(s, base, [], g, h, entries, o);
  }

  lemma HelperRun(s: State, m: Mustache, g: Option<nat>, h: Option<nat>, o: Options)
    requires s.hash.None? && Regular(m) && SurelyHelper(m, o)
    ensures Pushes(s, VisitHelper(m, g, h, o).opcodes, [DenoteCall(m, g, h, o, s.last)], o)
  {
    hide Run, LastContext, VisitArguments, LaidAll, DenoteHash, SetupParams, DenoteArguments, DenotePrograms,
         PathDepths,
         Head;
    var args := VisitArguments(m, g, h, o).opcodes;
    var entries := DenoteHash(m.hash, o);
    ArgumentsRun(s, m, g, h, o);
    ArgumentsContext(m, g, h, o, s.last);
    var mid := s.(stack := s.stack + (LaidAll(m.params, o) + Head(g, h, entries)), last := LastContext(args, s.last));
    assert mid.stack == s.stack + LaidAll(m.params, o) + Head(g, h, entries);
    SetupIs(mid, s.stack, m.params, g, h, entries, o);
    var call := if HeadName(m) in o.knownHelpers then InvokeKnownHelper(|m.params|, HeadName(m))
      else InvokeHelper(|m.params|, HeadName(m));
    RunConcat(s, args, [call], o);
    RunOne(mid, call, o);
    ContextKept(args, [call], s.last);
  }

  lemma AmbiguousRun(s: State, m: Mustache, g: Option<nat>, h: Option<nat>, o: Options)
    requires Regular(m) && PerhapsHelper(m, o)
    ensures Pushes(s, VisitAmbiguous(m, g, h).opcodes, [DenoteCall(m, g, h, o, s.last)], o)
  {
    hide Run, LastContext, SetupParams, DenotePrograms;
    var name := HeadName(m);
    var head := [GetContext(m.id.id.depth)];
    var programs := [PushProgram(g), PushProgram(h)];
    var call := InvokeAmbiguous(name, g.Some? || h.Some?);
    var s1 := s.(last := 0);
    RunOne(s, head[0], o);
    ProgramsRun(s1, g, h, o);
    var s2 := s1.(stack := s1.stack + [ProgramOf(g), ProgramOf(h)], last := LastContext(programs, 0));
    ProgramsKeepContext(g, h, 0);
    assert s2.stack + [HashOf([])] == s.stack + Head(g, h, []);
    SetupNone(Push(s2, HashOf([])), s.stack, g, h, [], o);
    RunOne(s2, call, o);
    RunConcat(s1, programs, [call], o);
    RunConcat(s, head, programs + [call], o);
    AmbiguousContext(m, g, h, s.last);
    assert head + (programs + [call]) == VisitAmbiguous(m, g, h).opcodes;
  }

  lemma SimpleRun(s: State, m: Mustache, o: Options)
    requires Regular(m)
    ensures Pushes(s, VisitSimple(m).opcodes, [Lambda(DenoteParam(m.id))], o)
  {
    hide Run, LastContext, VisitParam, Members;
    var ops := if m.id.IdParam? && m.id.id.parts == [] then [GetContext(m.id.id.depth), PushContext]
               else VisitParam(m.id).opcodes;
    if m.id.IdParam? && m.id.id.parts == [] {
      GetPushes(s, m.id.id.depth, PushContext, Context(m.id.id.depth), o);
      NoMembers(Context(m.id.id.depth));
    } else {
      ParamRun(s, m.id, o);
    }
    LambdaRun(s, ops, DenoteParam(m.id), o);
  }

  lemma NoMembers(base: Tree)
    ensures Members(base, []) == base
  {
  }

  lemma LambdaRun(s: State, ops: seq<Opcode>, t: Tree, o: Options)
    requires Pushes(s, ops, [t], o)
    ensures Pushes(s, ops + [ResolvePossibleLambda], [Lambda(t)], o)
  {
    hide Run, LastContext;
    var mid := s.(stack := s.stack + [t], last := LastContext(ops, s.last));
    RunConcat(s, ops, [ResolvePossibleLambda], o);
    RunOne(mid, ResolvePossibleLambda, o);
    assert mid.stack[..|mid.stack| - 1] == s.stack;
    ContextKept(ops, [ResolvePossibleLambda], s.last);
  }

  function VisitCall(m: Mustache, g: Option<nat>, h: Option<nat>, o: Options): seq<Opcode>
    requires Regular(m)
  {
    match Classify(m, o)
    case Simple => VisitSimple(m).opcodes
    case Helper => VisitHelper(m, g, h, o).opcodes
    case Ambiguous => VisitAmbiguous(m, g, h).opcodes
  }

  /** The classification, by what is written and known. */
  lemma KindIff(m: Mustache, o: Options)
    requires Regular(m)
    ensures Classify(m, o).Helper? <==> SurelyHelper(m, o)
    ensures Classify(m, o).Ambiguous? <==> PerhapsHelper(m, o)
  {
  }

  lemma CallRun(s: State, m: Mustache, g: Option<nat>, h: Option<nat>, o: Options)
    requires s.hash.None? && Regular(m)
    ensures Pushes(s, VisitCall(m, g, h, o), [DenoteCall(m, g, h, o, s.last)], o)
  {
    hide Pushes, VisitSimple, VisitHelper, VisitAmbiguous, SurelyHelper, PerhapsHelper, Classify;
    KindIff(m, o);
    if SurelyHelper(m, o) {
      HelperRun(s, m, g, h, o);
    } else if PerhapsHelper(m, o) {
      AmbiguousRun(s, m, g, h, o);
    } else {
      SimpleRun(s, m, o);
    }
  }

  /** A statement runs without underflow, appends what it denotes, and leaves the stack as it found it. */
  ghost predicate Appends(s: State, ops: seq<Opcode>, lines: seq<Line>, o: Options) {
    Run(s, ops, o) == Some(s.(lines := s.lines + lines, last := LastContext(ops, s.last)))
  }

  lemma Appended(s: State, ops: seq<Opcode>, t: Tree, op: Opcode, o: Options)
    requires Pushes(s, ops, [t], o) && (op.Append? || op.AppendEscaped?)
    ensures Appends(s, ops + [op], [if op.Append? then AppendLine(t) else EscapedLine(t)], o)
  {
    hide Run, LastContext;
    var mid := s.(stack := s.stack + [t], last := LastContext(ops, s.last));
    RunConcat(s, ops, [op], o);
    RunOne(mid, op, o);
    assert mid.stack[..|mid.stack| - 1] == s.stack;
    ContextKept(ops, [op], s.last);
  }

  lemma MustacheRun(s: State, m: Mustache, o: Options, guid: nat)
    requires s.hash.None? && Regular(m)
    ensures Appends(s, VisitMustache(m, o).opcodes, DenoteStatement(MustacheStatement(m), o, guid, s.last), o)
  {
    hide Appends, Pushes, VisitSimple, VisitHelper, VisitAmbiguous, DenoteCall;
    CallRun(s, m, None, None, o);
    Appended(s, VisitCall(m, None, None, o), DenoteCall(m, None, None, o, s.last),
             if m.escaped && !o.noEscape then AppendEscaped else Append, o);
  }

  /** blockValue and ambiguousBlockValue, after the call and its programs. */
  lemma BlockEnd(s: State, ops: seq<Opcode>, t: Tree, g: Option<nat>, h: Option<nat>, op: Opcode, o: Options)
    requires Pushes(s, ops, [t], o) && (op.BlockValue? || op.AmbiguousBlockValue?)
    ensures Pushes(s, ops + [PushProgram(g), PushProgram(h), EmptyHash, op],
                   [if op.BlockValue? then BlockMissing(t, CallOptions([], DenotePrograms(g, h)))
                    else BlockUnlessCalled(t)], o)
  {
    hide Run, LastContext, SetupParams, DenotePrograms;
    var programs, more := [PushProgram(g), PushProgram(h)], [PushProgram(g), PushProgram(h), EmptyHash, op];
    var s1 := s.(stack := s.stack + [t], last := LastContext(ops, s.last));
    ProgramsRun(s1, g, h, o);
    ProgramsKeepContext(g, h, s1.last);
    var s2 := s1.(stack := s1.stack + [ProgramOf(g), ProgramOf(h)]);
    RunOne(s2, EmptyHash, o);
    var s3 := Push(s2, HashOf([]));
    assert s3.stack == s1.stack + Head(g, h, []);
    SetupNone(s3, s1.stack, g, h, [], o);
    RunOne(s3, op, o);
    assert s1.stack[..|s1.stack| - 1] == s.stack;
    RunConcat(s2, [EmptyHash], [op], o);
    RunConcat(s1, programs, [EmptyHash] + [op], o);
    assert programs + ([EmptyHash] + [op]) == more;
    RunConcat(s, ops, more, o);
    ContextKept(ops, more, s.last);
  }

  lemma BlockRun(s: State, m: Mustache, program: Option<Program>, inverse: Option<Program>, o: Options, guid: nat)
    requires s.hash.None? && Regular(m) && RegularStatement(Block(m, program, inverse))
    ensures Appends(s, CompileStatement(Block(m, program, inverse), o, guid).opcodes,
                    DenoteStatement(Block(m, program, inverse), o, guid, s.last), o)
  {
    hide Appends, Pushes, VisitSimple, VisitHelper, VisitAmbiguous, DenoteCall, CompileProgram, RegularProgram,
         SurelyHelper, PerhapsHelper, Classify;
    var g, h := Guid(program, guid), Guid(inverse, guid + |CompileOptional(program, o)|);
    KindIff(m, o);
    CallRun(s, m, g, h, o);
    var ops, t := VisitCall(m, g, h, o), DenoteCall(m, g, h, o, s.last);
    if SurelyHelper(m, o) {
      Appended(s, ops, t, Append, o);
    } else {
      var op := if PerhapsHelper(m, o) then AmbiguousBlockValue else BlockValue;
      var more := [PushProgram(g), PushProgram(h), EmptyHash, op];
      BlockEnd(s, ops, t, g, h, op, o);
      Appended(s, ops + more, if op.BlockValue? then BlockMissing(t, CallOptions([], DenotePrograms(g, h)))
                              else BlockUnlessCalled(t), Append, o);
      assert VisitBlock(m, g, h, o).opcodes == ops + more + [Append];
    }
  }

  lemma PartialRun(s: State, name: string, context: Option<Id>, o: Options, guid: nat)
    ensures Appends(s, VisitPartial(name, context).opcodes,
                    DenoteStatement(Partial(name, context), o, guid, s.last), o)
  {
    hide Run, LastContext, VisitId, DenoteId;
    var ops := if context.Some? then VisitId(context.value).opcodes else [PushDepth0];
    var t := if context.Some? then DenoteId(context.value) else Context(0);
    if context.Some? {
      IdRun(s, context.value, o);
    } else {
      PushesOne(s, PushDepth0, Context(0), o);
    }
    var mid := s.(stack := s.stack + [t], last := LastContext(ops, s.last));
    RunConcat(s, ops, [InvokePartial(name)], o);
    RunOne(mid, InvokePartial(name), o);
    assert mid.stack[..|mid.stack| - 1] == s.stack;
    ContextKept(ops, [InvokePartial(name)], s.last);
    Appended(s, ops + [InvokePartial(name)], PartialCall(name, t), Append, o);
    assert VisitPartial(name, context).opcodes == ops + [InvokePartial(name)] + [Append];
  }

  lemma StatementRun(s: State, m: Statement, o: Options, guid: nat)
    requires s.hash.None? && RegularStatement(m)
    ensures Appends(s, CompileStatement(m, o, guid).opcodes, DenoteStatement(m, o, guid, s.last), o)
  {
    hide Run, LastContext, VisitMustache, VisitPartial, DenoteCall, DenoteId;
    match m
    case MustacheStatement(x) => MustacheRun(s, x, o, guid);
    case Block(x, program, inverse) => BlockRun(s, x, program, inverse, o, guid);
    case Partial(name, context) => PartialRun(s, name, context, o, guid);
    case Content(text) =>
      RunOne(s, AppendContent(text), o);
      OneMention(AppendContent(text), s.last, []);
    case Comment =>
      NothingRun(s, o);
      assert s.stack + [] == s.stack && s.lines + [] == s.lines;
  }

  /** Every program runs without underflow on its own opcodes, and appends what its statements denote: arguments in
      source order, each key with its own value, and names looked up in the contexts they say. */
  lemma {:induction false} BodyRun(s: State, body: seq<Statement>, o: Options, guid: nat)
    requires s.hash.None? && RegularBody(body)
    ensures Appends(s, CompileBody(body, o, guid).opcodes, DenoteBody(body, o, guid, s.last), o)
    decreases |body|
  {
    hide Appends, LastContext, CompileStatement, DenoteStatement, StatementDepths;
    if body == [] {
      NothingAppended(s, o);
    } else {
      var first := CompileStatement(body[0], o, guid);
      var rest := CompileBody(body[1..], o, guid + |first.children|);
      ChildCount(body[0], o, guid);
      StatementRun(s, body[0], o, guid);
      StatementContext(body[0], o, guid, s.last);
      var lines := DenoteStatement(body[0], o, guid, s.last);
      var mid := s.(lines := s.lines + lines, last := LastContext(first.opcodes, s.last));
      BodyRun(mid, body[1..], o, guid + |first.children|);
      AppendsConcat(s, first.opcodes, lines, rest.opcodes,
                    DenoteBody(body[1..], o, guid + |first.children|, mid.last), o);
    }
  }

  lemma NothingAppended(s: State, o: Options)
    ensures Appends(s, [], [], o)
  {
    assert s.lines + [] == s.lines;
  }

  lemma AppendsConcat(s: State, a: seq<Opcode>, x: seq<Line>, b: seq<Opcode>, y: seq<Line>, o: Options)
    requires Appends(s, a, x, o)
    requires Appends(s.(lines := s.lines + x, last := LastContext(a, s.last)), b, y, o)
    ensures Appends(s, a + b, x + y, o)
  {
    hide Run, LastContext;
    RunConcat(s, a, b, o);
    MentionsConcat(a, b, s.last, []);
    assert s.lines + x + y == s.lines + (x + y);
  }

  lemma ChildCount(s: Statement, o: Options, guid: nat)
    requires RegularStatement(s)
    ensures |CompileStatement(s, o, guid).children| == Programs1(s)
  {
    hide VisitMustache, VisitBlock, VisitPartial, CompileProgram;
  }

  /** A compiled program, from an empty stack. */
  lemma ProgramRun(p: Program, o: Options)
    requires RegularProgram(p)
    ensures var t := Run(State([], None, 0, []), CompileProgram(p, o).opcodes, o);
      t.Some? && t.value.stack == [] && t.value.lines == DenoteBody(p.statements, o, 0, 0)
  {
    hide Run, LastContext, CompileBody, DenoteBody;
    BodyRun(State([], None, 0, []), p.statements, o, 0);
    assert [] + DenoteBody(p.statements, o, 0, 0) == DenoteBody(p.statements, o, 0, 0);
  }
}
