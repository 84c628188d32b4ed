/** The Handlebars 4.0.5 code generator: opcodes run on an inline stack and a
    compile stack and leave lines of JavaScript. The functions give each step as
    a function of the generator's state; JavaScriptCompiler updates its fields. */
module HandlebarsCodegen {
  import opened Wrappers
  import opened HandlebarsCompiler

  // ---------- Generated code ----------

  datatype Atom =
    | Context(depth: nat)
    | Text(literal: Literal)
    | Braces
    | Absent
    | ProgramRef(guid: nat)
    | NoProgram
    | Noop
    | Data(depth: nat)
    | BlockParam(depth: nat, index: nat)
    | BlockParamPath(depth: nat, index: nat, child: string)
    | TrueText
    | NullText
    | EmptyText

  datatype Code =
    | Atomic(atom: Atom)
    | Tmp(slot: nat)
    | Assign(slot: nat, value: Code)
    | Member(base: Code, name: string)
    | IfNotNull(test: Code, thn: Code, els: Code)
    | AndAlso(test: Code, thn: Code)
    | Lambda(fn: Code)
    | HashLiteral(entries: seq<Entry>)
    | KnownCall(name: string, params: seq<Code>, options: CallOptions)
    | HelperCall(isSimple: bool, name: string, nonHelper: Code, params: seq<Code>, options: CallOptions)
    | AmbiguousCall(name: string, nonHelper: Code, options: CallOptions, isBlock: bool)
    | BlockMissing(value: Code, options: CallOptions)
    | PartialCall(partial: Code, context: Code, options: CallOptions, indent: string)
    | NamedPartial(name: string)

  datatype Entry = Entry(key: string, code: Code)

  datatype CallOptions = CallOptions(
    name: string, hash: Code, hashIds: Code, hashTypes: Code, hashContexts: Code,
    program: Code, inverse: Code, ids: seq<Code>, types: seq<Code>, contexts: seq<Code>)

  datatype Line =
    | AppendLine(code: Code)
    | AppendEscapedLine(code: Code)
    | TextLine(text: string)
    | SetTmp(slot: nat, code: Code)
    | BlockFix(helper: Option<string>, current: Code)
    | AppendIfNotNull(code: Code)

  // ---------- State ----------

  /** A stack entry: a Literal object, or code that needs a variable once flushed. */
  datatype Slot = Lit(code: Code) | Inline(code: Code)

  datatype HashState = HashState(values: seq<Entry>, types: seq<Entry>, contexts: seq<Entry>, ids: seq<Entry>)

  datatype State = State(
    inlineStack: seq<Slot>, compileStack: seq<Slot>, stackSlot: nat, stackVars: nat, lastContext: nat,
    hash: Option<HashState>, hashes: seq<HashState>, lines: seq<Line>, pendingContent: string,
    lastHelper: Option<string>, decorators: seq<Code>)

  const INITIAL := State([], [], 0, 0, 0, None, [], [], "", None, [])

  function Push(s: State, x: Slot): State { s.(inlineStack := s.inlineStack + [x]) }

  /** None is the thrown "Invalid stack pop". */
  function PopStack(s: State): Option<(Slot, State)> {
    if s.inlineStack != [] then
      Some((s.inlineStack[|s.inlineStack| - 1], s.(inlineStack := s.inlineStack[..|s.inlineStack| - 1])))
    else if s.compileStack == [] then None
    else
      var item := s.compileStack[|s.compileStack| - 1];
      var rest := s.(compileStack := s.compileStack[..|s.compileStack| - 1]);
      if item.Lit? then Some((item, rest))
      else if s.stackSlot == 0 then None
      else Some((item, rest.(stackSlot := s.stackSlot - 1)))
  }

  function IncrStack(s: State): State {
    s.(stackSlot := s.stackSlot + 1, stackVars := if s.stackSlot + 1 > s.stackVars then s.stackVars + 1
       else s.stackVars)
  }

  /** What replaceStack wraps around the value it takes off. */
  datatype Wrapper = NotNullMember(name: string) | AndMember(name: string) | OrEmpty

  function Wrap(w: Wrapper, test: Code, current: Code): Code {
    match w
    case NotNullMember(name) => IfNotNull(test, Member(current, name), current)
    case AndMember(name) => AndAlso(test, Member(current, name))
    case OrEmpty => IfNotNull(test, current, Atomic(EmptyText))
  }

  /** None is the thrown "replaceStack on non-inline". */
  function ReplaceStack(s: State, w: Wrapper): Option<State> {
    if s.inlineStack == [] then None else
      var top := s.inlineStack[|s.inlineStack| - 1];
      var rest := s.(inlineStack := s.inlineStack[..|s.inlineStack| - 1]);
      if top.Lit? then Some(Push(rest, Inline(Wrap(w, top.code, top.code))))
      else
        var n := s.stackSlot + 1;
        Some(Push(IncrStack(rest).(stackSlot := s.stackSlot), Inline(Wrap(w, Assign(n, top.code), Tmp(n)))))
  }

  function PushSource(s: State, line: seq<Line>): State {
    s.(lines := s.lines + (if s.pendingContent != "" then [TextLine(s.pendingContent)] else []) + line,
       pendingContent := "")
  }

  function FlushEntries(s: State, entries: seq<Slot>): State
    decreases |entries|
  {
    if entries == [] then s
    else if entries[0].Lit? then FlushEntries(s.(compileStack := s.compileStack + [entries[0]]), entries[1..])
    else
      var t := IncrStack(s);
      var u := PushSource(t, [SetTmp(t.stackSlot, entries[0].code)]);
      FlushEntries(u.(compileStack := u.compileStack + [Inline(Tmp(t.stackSlot))]), entries[1..])
  }

  function FlushInline(s: State): State { FlushEntries(s.(inlineStack := []), s.inlineStack) }

  /** None when both stacks are empty. */
  function TopStack(s: State): Option<Code> {
    if s.inlineStack != [] then Some(s.inlineStack[|s.inlineStack| - 1].code)
    else if s.compileStack != [] then Some(s.compileStack[|s.compileStack| - 1].code)
    else None
  }

  // ---------- Hashes ----------

  function Digits(s: string): Option<nat> {
    if s == "" then Some(0)
    else if '0' <= s[|s| - 1] <= '9' then
      var high := Digits(s[..|s| - 1]);
      if high.Some? then Some(high.value * 10 + (s[|s| - 1] as int - '0' as int)) else None
    else None
  }

  /** The array index a property name stands for, if any. */
  function ArrayIndex(key: string): Option<nat> {
    if key == "" || (|key| > 1 && key[0] == '0') then None else
      var n := Digits(key);
      if n.Some? && n.value < 0xFFFF_FFFF then n else None
  }

  function Truncated(entries: seq<Entry>, length: nat): seq<Entry> {
    if entries == [] then [] else
      var i := ArrayIndex(entries[0].key);
      (if i.Some? && i.value >= length then [] else [entries[0]]) + Truncated(entries[1..], length)
  }

  function PutEntry(entries: seq<Entry>, key: string, code: Code): (r: seq<Entry>) {
    if entries == [] then [Entry(key, code)]
    else if entries[0].key == key then [Entry(key, code)] + entries[1..]
    else [entries[0]] + PutEntry(entries[1..], key, code)
  }

  /** The names an array does not keep as plain entries. */
  predicate PlainKey(key: string) { key != "length" && key != "__proto__" && key != "hasOwnProperty" }

  /** `values[key] = code`, where values is an array: the key "length" sets its length and
      "__proto__" at most its prototype. None is the RangeError of an invalid length. */
  function SetKey(entries: seq<Entry>, key: string, code: Code): Option<seq<Entry>> {
    if key == "__proto__" then Some(entries)
    else if key != "length" then Some(PutEntry(entries, key, code))
    else
      match code
      case Atomic(Text(Number(_, Some(n)))) => Some(Truncated(entries, n))
      case Atomic(Text(Bool(b))) => Some(Truncated(entries, if b then 1 else 0))
      case _ => None
  }

  function PushHashStep(s: State): State {
    s.(hashes := if s.hash.Some? then s.hashes + [s.hash.value] else s.hashes, hash := Some(HashState([], [], [], [])))
  }

  /** objectLiteral asks `obj.hasOwnProperty`, which a key of that name hides. */
  predicate Listable(entries: seq<Entry>) {
    forall i :: 0 <= i < |entries| ==> entries[i].key != "hasOwnProperty"
  }

  predicate ListableHash(h: HashState, o: Options) {
    Listable(h.values) && (o.trackIds ==> Listable(h.ids)) &&
      (o.stringParams ==> Listable(h.contexts) && Listable(h.types))
  }

  /** None is the TypeError of a hidden hasOwnProperty. */
  function PopHashStep(s: State, o: Options): Option<State> {
    if s.hash.None? || !ListableHash(s.hash.value, o) then None else
      var hash := s.hash.value;
      var restored := if s.hashes == [] then s.(hash := None)
                      else s.(hash := Some(s.hashes[|s.hashes| - 1]), hashes := s.hashes[..|s.hashes| - 1]);
      Some(restored.(inlineStack := s.inlineStack +
        (if o.trackIds then [Inline(HashLiteral(hash.ids))] else []) +
        (if o.stringParams then [Inline(HashLiteral(hash.contexts)), Inline(HashLiteral(hash.types))] else []) +
        [Inline(HashLiteral(hash.values))]))
  }

  function EmptyHashStep(s: State, omitEmpty: bool, o: Options): State {
    s.(inlineStack := s.inlineStack +
      (if o.trackIds then [Inline(Atomic(Braces))] else []) +
      (if o.stringParams then [Inline(Atomic(Braces)), Inline(Atomic(Braces))] else []) +
      [Lit(Atomic(if omitEmpty then Text(Undefined) else Braces))])
  }

  // ---------- Arguments ----------

  /** One parameter as it lies on the stack; parts a mode does not use are Absent. */
  datatype Arg = Arg(param: Code, id: Code, typ: Code, context: Code)

  function PopOptional(s: State, used: bool): Option<(Code, State)> {
    if !used then Some((Atomic(Absent), s)) else
      var p := PopStack(s);
      if p.None? then None else Some((p.value.0.code, p.value.1))
  }

  /** Pops value, id, type and context, in that order. */
  function PopArg(s: State, o: Options): Option<(Arg, State)> {
    var p := PopOptional(s, true);
    if p.None? then None else
      var id := PopOptional(p.value.1, o.trackIds);
      if id.None? then None else
        var typ := PopOptional(id.value.1, o.stringParams);
        if typ.None? then None else
          var context := PopOptional(typ.value.1, o.stringParams);
          if context.None? then None
          else Some((Arg(p.value.0, id.value.0, typ.value.0, context.value.0), context.value.1))
  }

  function AssignToHashStep(s: State, key: string, o: Options): Option<State> {
    var a := PopArg(s, o);
    if a.None? || s.hash.None? then None else
      var (arg, rest) := a.value;
      var h := s.hash.value;
      var contexts := if o.stringParams then SetKey(h.contexts, key, arg.context) else Some(h.contexts);
      var types := if o.stringParams then SetKey(h.types, key, arg.typ) else Some(h.types);
      var ids := if o.trackIds then SetKey(h.ids, key, arg.id) else Some(h.ids);
      var values := SetKey(h.values, key, arg.param);
      if contexts.None? || types.None? || ids.None? || values.None? then None
      else Some(rest.(hash := Some(HashState(values.value, types.value, contexts.value, ids.value))))
  }

  function PopArgs(s: State, n: nat, o: Options): Option<(seq<Arg>, State)>
    decreases n
  {
    if n == 0 then Some(([], s)) else
      var a := PopArg(s, o);
      if a.None? then None else
        var rest := PopArgs(a.value.1, n - 1, o);
        if rest.None? then None else Some((rest.value.0 + [a.value.0], rest.value.1))
  }

  datatype Part = ValuePart | IdPart | TypePart | ContextPart

  function Pick(a: Arg, part: Part): Code {
    match part
    case ValuePart => a.param
    case IdPart => a.id
    case TypePart => a.typ
    case ContextPart => a.context
  }

  function Picked(args: seq<Arg>, part: Part): (r: seq<Code>)
    ensures |r| == |args|
  {
    if args == [] then [] else [Pick(args[0], part)] + Picked(args[1..], part)
  }

  /** `fn` and `inverse`: set together, with a no-op for the missing one. */
  function OrNoop(program: Code, other: Code): Code {
    if program == Atomic(NoProgram) && other != Atomic(NoProgram) then Atomic(Noop) else program
  }

  datatype Setup = Setup(args: seq<Arg>, options: CallOptions, rest: State)

  /** setupParams: pops hash, program and inverse, then the parameters last first. */
  function SetupParams(s: State, name: string, paramSize: nat, o: Options): Option<Setup> {
    var h := PopArg(s, o);
    if h.None? then None else
      var inverse := PopOptional(h.value.1, true);
      if inverse.None? then None else
        var program := PopOptional(inverse.value.1, true);
        if program.None? then None else
          var args := PopArgs(program.value.1, paramSize, o);
          if args.None? then None else
            var hash := h.value.0;
            Some(Setup(args.value.0,
              CallOptions(name, hash.param, hash.id, hash.typ, hash.context,
                          OrNoop(program.value.0, inverse.value.0), OrNoop(inverse.value.0, program.value.0),
                          if o.trackIds then Picked(args.value.0, IdPart) else [],
                          if o.stringParams then Picked(args.value.0, TypePart) else [],
                          if o.stringParams then Picked(args.value.0, ContextPart) else []),
              args.value.1))
  }

  // ---------- Opcodes ----------

  function ResolvePath(s: State, parts: seq<string>, falsy: bool): Option<State>
    decreases |parts|
  {
    if parts == [] then Some(s) else
      var t := ReplaceStack(s, if falsy then AndMember(parts[0]) else NotNullMember(parts[0]));
      if t.None? then None else ResolvePath(t.value, parts[1..], falsy)
  }

  function LiteralSlot(l: Literal): Slot { Lit(Atomic(Text(l))) }

  function IdSlot(id: IdKind): Slot {
    match id
    case BlockParamId(d, i, child) => Lit(Atomic(BlockParamPath(d, i, child)))
    case PathId(name) => LiteralSlot(Quoted(name))
    case SubExpressionId => Lit(Atomic(TrueText))
    case OtherId => Lit(Atomic(NullText))
  }

  function InvokeStep(s: State, op: Opcode, o: Options): Option<State>
    requires op.InvokeKnownHelper? || op.InvokeHelper? || op.InvokeAmbiguous? || op.InvokePartial? ||
             op.RegisterDecorator?
  {
    match op
    case InvokeKnownHelper(n, name) =>
      var u := SetupParams(s, name, n, o);
      if u.None? then None
        else Some(Push(u.value.rest, Inline(KnownCall(name, Picked(u.value.args, ValuePart), u.value.options))))
    case InvokeHelper(n, name, isSimple) =>
      var nonHelper := PopStack(s);
      if nonHelper.None? then None else
        var u := SetupParams(nonHelper.value.1, name, n, o);
        if u.None? then None else
          Some(Push(u.value.rest,
            Inline(HelperCall(isSimple, name, nonHelper.value.0.code, Picked(u.value.args, ValuePart),
                              u.value.options))))
    case InvokeAmbiguous(name, isBlock) =>
      var nonHelper := PopStack(s);
      if nonHelper.None? then None else
        var u := SetupParams(EmptyHashStep(nonHelper.value.1, false, o), name, 0, o);
        if u.None? then None else
          Some(Push(u.value.rest.(lastHelper := Some(name)),
            Inline(AmbiguousCall(name, nonHelper.value.0.code, u.value.options, isBlock))))
    case InvokePartial(isDynamic, name, indent) =>
      var u := SetupParams(s, name, 1, o);
      if u.None? then None else
        var callee := PopOptional(u.value.rest, isDynamic);
        if callee.None? then None else
          Some(Push(callee.value.1, Inline(PartialCall(
            if isDynamic then callee.value.0 else NamedPartial(name), u.value.args[0].param, u.value.options, indent))))
    case RegisterDecorator(n, name) =>
      var u := SetupParams(s, name, n, o);
      if u.None? then None
      else Some(u.value.rest.(decorators :=
                              s.decorators + [KnownCall(name, Picked(u.value.args, ValuePart), u.value.options)]))
  }

  function BlockStep(s: State, op: Opcode, o: Options): Option<State>
    requires op.BlockValue? || op.AmbiguousBlockValue?
  {
    match op
    case BlockValue(name) =>
      var u := SetupParams(s, name, 0, o);
      if u.None? then None else
        var value := PopStack(u.value.rest);
        if value.None? then None
        else Some(Push(value.value.1, Inline(BlockMissing(value.value.0.code, u.value.options))))
    case AmbiguousBlockValue =>
      var u := SetupParams(s, "", 0, o);
      if u.None? then None else
        var t := FlushInline(u.value.rest);
        var current := TopStack(t);
        if current.None? then None else Some(PushSource(t, [BlockFix(s.lastHelper, current.value)]))
  }

  function AppendStep(s: State): Option<State> {
    if s.inlineStack != [] then
      var t := ReplaceStack(s, OrEmpty).value;
      var p := PopStack(t);
      if p.None? then None else Some(PushSource(p.value.1, [AppendLine(p.value.0.code)]))
    else
      var p := PopStack(s);
      if p.None? then None else Some(PushSource(p.value.1, [AppendIfNotNull(p.value.0.code)]))
  }

  function Step(s: State, op: Opcode, o: Options): Option<State> {
    match op
    case GetContext(d) => Some(s.(lastContext := d))
    case PushContext => Some(Push(s, Lit(Atomic(Context(s.lastContext)))))
    case LookupBlockParam(d, i, parts) =>
      ResolvePath(Push(s, Inline(Atomic(BlockParam(d, i)))), if parts == [] then [] else parts[1..], false)
    case LookupData(d, parts, _) => ResolvePath(Push(s, Lit(Atomic(Data(d)))), parts, true)
    case LookupOnContext(parts, falsy, _, _) => ResolvePath(Push(s, Lit(Atomic(Context(s.lastContext)))), parts, falsy)
    case PushString(t) => Some(Push(s, LiteralSlot(Quoted(t))))
    case PushLiteral(l) => Some(Push(s, LiteralSlot(l)))
    case PushStringParam(value, typ) =>
      var t := Push(Push(s, Lit(Atomic(Context(s.lastContext)))), LiteralSlot(Quoted(typ)));
      Some(if typ == "SubExpression" then t else Push(t, LiteralSlot(value)))
    case PushId(id) => Some(Push(s, IdSlot(id)))
    case PushProgram(guid) => Some(Push(s, Lit(Atomic(if guid.Some? then ProgramRef(guid.value) else NoProgram))))
    case EmptyHash(omit) => Some(EmptyHashStep(s, omit, o))
    case PushHash => Some(PushHashStep(s))
    case AssignToHash(key) => AssignToHashStep(s, key, o)
    case PopHash => PopHashStep(s, o)
    case ResolvePossibleLambda =>
      var p := PopStack(s);
      if p.None? then None else Some(Push(p.value.1, Inline(Lambda(p.value.0.code))))
    case BlockValue(_) => BlockStep(s, op, o)
    case AmbiguousBlockValue => BlockStep(s, op, o)
    case Append => AppendStep(s)
    case AppendEscaped =>
      var p := PopStack(s);
      if p.None? then None else Some(PushSource(p.value.1, [AppendEscapedLine(p.value.0.code)]))
    case AppendContent(content) => Some(s.(pendingContent := s.pendingContent + content))
    case _ => InvokeStep(s, op, o)
  }

  function Run(s: State, ops: seq<Opcode>, o: Options): Option<State>
    decreases |ops|
  {
    if ops == [] then Some(s) else
      var t := Step(s, ops[0], o);
      if t.None? then None else Run(t.value, ops[1..], o)
  }

  lemma {:induction false} RunAppend(s: State, a: seq<Opcode>, b: seq<Opcode>, o: Options)
    ensures Run(s, a + b, o) == (if Run(s, a, o).None? then None else Run(Run(s, a, o).value, b, o))
    decreases |a|
  {
    hide Step;
    if a == [] {
      assert a + b == b;
    } else {
      assert (a + b)[1..] == a[1..] + b;
      var t := Step(s, a[0], o);
      if t.Some? {
        RunAppend(t.value, a[1..], b, o);
      }
    }
  }
}
