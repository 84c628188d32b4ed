/** What generated code computes under any run-time, and what the syntax tree
    denotes under the same run-time. */
module HandlebarsSemantics {
  import opened Wrappers
  import opened HandlebarsCompiler
  import opened HandlebarsCodegen

  datatype CallArguments<V> = CallArguments(
    name: string, hash: V, hashIds: V, hashTypes: V, hashContexts: V, program: V, inverse: V,
    ids: seq<V>, types: seq<V>, contexts: seq<V>)

  /** The values and operations generated code refers to. Helpers are functions of their arguments. */
  datatype Runtime<!V> = Runtime(
    atom: Atom -> V,
    member: (V, string) -> V,
    isNull: V -> bool,
    truthy: V -> bool,
    isFunction: V -> bool,
    lambda: V -> V,
    literal: map<string, V> -> V,
    helper: string -> V,
    helperMissing: V,
    blockHelperMissing: V,
    call: (V, seq<V>, CallArguments<V>) -> V,
    partial: string -> V,
    invokePartial: (V, V, CallArguments<V>, string) -> V,
    escape: V -> V)

  /** The stack variables and the `options` register of a running program. */
  datatype Store<V> = Store(tmps: map<nat, V>, options: Option<CallArguments<V>>)

  // ---------- Evaluation of generated code ----------

  /** An undefined value is not printed in an object literal. */
  predicate Dropped(e: Entry) { e.code == Atomic(Text(Undefined)) }

  function CallAmbiguous<V>(rt: Runtime<V>, name: string, nonHelper: V, options: CallArguments<V>): V {
    var found := if rt.truthy(rt.helper(name)) then rt.helper(name) else nonHelper;
    var helper := if rt.isNull(found) then rt.helperMissing else found;
    if rt.isFunction(helper) then rt.call(helper, [], options) else helper
  }

  function CallHelper<V>(rt: Runtime<V>, isSimple: bool, name: string, nonHelper: V, params: seq<V>,
                         options: CallArguments<V>): V {
    var helper := if isSimple && rt.truthy(rt.helper(name)) then rt.helper(name)
                  else if rt.truthy(nonHelper) then nonHelper else rt.helperMissing;
    rt.call(helper, params, options)
  }

  /** Left to right, with assignments to stack variables and short circuits as JavaScript has them. */
  function Eval<V>(c: Code, rt: Runtime<V>, st: Store<V>): (V, Store<V>)
    decreases c
  {
    match c
    case Atomic(a) => (rt.atom(a), st)
    case Tmp(n) => (if n in st.tmps then st.tmps[n] else rt.atom(Text(Undefined)), st)
    case Assign(n, value) =>
      var (v, st1) := Eval(value, rt, st);
      (v, st1.(tmps := st1.tmps[n := v]))
    case Member(base, name) =>
      var (v, st1) := Eval(base, rt, st);
      (rt.member(v, name), st1)
    case IfNotNull(test, thn, els) =>
      var (v, st1) := Eval(test, rt, st);
      if rt.isNull(v) then Eval(els, rt, st1) else Eval(thn, rt, st1)
    case AndAlso(test, thn) =>
      var (v, st1) := Eval(test, rt, st);
      if rt.truthy(v) then Eval(thn, rt, st1) else (v, st1)
    case Lambda(fn) =>
      var (v, st1) := Eval(fn, rt, st);
      (rt.lambda(v), st1)
    case HashLiteral(entries) =>
      var (m, st1) := EvalEntries(entries, rt, st);
      (rt.literal(m), st1)
    case KnownCall(name, params, options) =>
      var (ps, st1) := EvalAll(params, rt, st);
      var (os, st2) := EvalOptions(options, rt, st1);
      (rt.call(rt.helper(name), ps, os), st2)
    case HelperCall(isSimple, name, nonHelper, params, options) =>
      var (v, st1) := if isSimple && rt.truthy(rt.helper(name)) then (rt.helper(name), st) else Eval(nonHelper, rt, st);
      var (ps, st2) := EvalAll(params, rt, st1);
      var (os, st3) := EvalOptions(options, rt, st2);
      (CallHelper(rt, isSimple, name, v, ps, os), st3)
    case AmbiguousCall(name, nonHelper, options, isBlock) =>
      var (v, st1) := if rt.truthy(rt.helper(name)) then (rt.helper(name), st) else Eval(nonHelper, rt, st);
      var (os, st2) := EvalOptions(options, rt, st1);
      (CallAmbiguous(rt, name, v, os), if isBlock then st2.(options := Some(os)) else st2)
    case BlockMissing(value, options) =>
      var (v, st1) := Eval(value, rt, st);
      var (os, st2) := EvalOptions(options, rt, st1);
      (rt.call(rt.blockHelperMissing, [v], os), st2)
    case PartialCall(partial, context, options, indent) =>
      var (p, st1) := Eval(partial, rt, st);
      var (v, st2) := Eval(context, rt, st1);
      var (os, st3) := EvalOptions(options, rt, st2);
      (rt.invokePartial(p, v, os, indent), st3)
    case NamedPartial(name) => (rt.partial(name), st)
  }

  function EvalAll<V>(cs: seq<Code>, rt: Runtime<V>, st: Store<V>): (seq<V>, Store<V>)
    decreases cs
  {
    if cs == [] then ([], st) else
      var (v, st1) := Eval(cs[0], rt, st);
      var (vs, st2) := EvalAll(cs[1..], rt, st1);
      ([v] + vs, st2)
  }

  function EvalEntries<V>(es: seq<Entry>, rt: Runtime<V>, st: Store<V>): (map<string, V>, Store<V>)
    decreases es
  {
    if es == [] then (map[], st)
    else if Dropped(es[0]) then EvalEntries(es[1..], rt, st)
    else
      var (v, st1) := Eval(es[0].code, rt, st);
      var (m, st2) := EvalEntries(es[1..], rt, st1);
      (map[es[0].key := v] + m, st2)
  }

  function EvalOptions<V>(o: CallOptions, rt: Runtime<V>, st: Store<V>): (CallArguments<V>, Store<V>)
    decreases o
  {
    var (hash, s1) := Eval(o.hash, rt, st);
    var (hashIds, s2) := Eval(o.hashIds, rt, s1);
    var (hashTypes, s3) := Eval(o.hashTypes, rt, s2);
    var (hashContexts, s4) := Eval(o.hashContexts, rt, s3);
    var (program, s5) := Eval(o.program, rt, s4);
    var (inverse, s6) := Eval(o.inverse, rt, s5);
    var (ids, s7) := EvalAll(o.ids, rt, s6);
    var (types, s8) := EvalAll(o.types, rt, s7);
    var (contexts, s9) := EvalAll(o.contexts, rt, s8);
    (CallArguments(o.name, hash, hashIds, hashTypes, hashContexts, program, inverse, ids, types, contexts), s9)
  }

  // ---------- Output of a program ----------

  /** The output buffer, character by character for literal text. */
  datatype Item<V> = Char(c: char) | Value(v: V)

  function Chars<V>(s: string): seq<Item<V>> {
    if s == "" then [] else [Char(s[0])] + Chars(s[1..])
  }

  function ExecLine<V>(line: Line, rt: Runtime<V>, st: Store<V>, out: seq<Item<V>>): (Store<V>, seq<Item<V>>) {
    match line
    case AppendLine(code) =>
      var (v, st1) := Eval(code, rt, st);
      (st1, out + [Value(v)])
    case AppendEscapedLine(code) =>
      var (v, st1) := Eval(code, rt, st);
      (st1, out + [Value(rt.escape(v))])
    case TextLine(text) => (st, out + Chars(text))
    case SetTmp(n, code) =>
      var (v, st1) := Eval(code, rt, st);
      (st1.(tmps := st1.tmps[n := v]), out)
    case BlockFix(helper, current) =>
      if helper.Some? && !rt.truthy(rt.helper(helper.value)) && current.Tmp? && st.options.Some? then
        var (v, st1) := Eval(current, rt, st);
        (st1.(tmps := st1.tmps[current.slot := rt.call(rt.blockHelperMissing, [v], st.options.value)]), out)
      else (st, out)
    case AppendIfNotNull(code) =>
      var (v, st1) := Eval(code, rt, st);
      (st1, if rt.isNull(v) then out else out + [Value(v)])
  }

  function Exec<V>(lines: seq<Line>, rt: Runtime<V>, st: Store<V>, out: seq<Item<V>>): (Store<V>, seq<Item<V>>)
    decreases |lines|
  {
    if lines == [] then (st, out) else
      var (st1, out1) := ExecLine(lines[0], rt, st, out);
      Exec(lines[1..], rt, st1, out1)
  }

  // ---------- Denotation of the syntax tree ----------

  function Descend<V>(rt: Runtime<V>, v: V, parts: seq<string>, falsy: bool): V
    decreases |parts|
  {
    if parts == [] then v else
      var next := if falsy then (if rt.truthy(v) then rt.member(v, parts[0]) else v)
                  else (if rt.isNull(v) then v else rt.member(v, parts[0]));
      Descend(rt, next, parts[1..], falsy)
  }

  /** A path: a block parameter, a context so many levels out, data, or a lookup on a context. */
  function DenotePath<V>(p: Path, falsy: bool, bp: Scope, rt: Runtime<V>): V {
    var name := HeadName(p);
    var blockParam := if p.depth == 0 && !ScopedId(p.original) && p.parts != [] then BlockParamIndex(bp, name)
      else None;
    if blockParam.Some? then
      Descend(rt, rt.atom(BlockParam(blockParam.value.0, blockParam.value.1)), p.parts[1..], false)
    else if p.parts == [] || p.parts[0] == "" then rt.atom(Context(p.depth))
    else if p.data then Descend(rt, rt.atom(Data(p.depth)), p.parts, true)
    else Descend(rt, rt.atom(Context(p.depth)), p.parts, falsy)
  }

  /** A parameter with its id, type and context where a mode asks for them. */
  datatype Denoted<V> = Denoted(value: V, id: V, typ: V, context: V)

  function Denote<V>(e: Expr, o: Options, bp: Scope, rt: Runtime<V>): V
    decreases e, 1
  {
    match e
    case PathExpression(p) => DenotePath(p, false, bp, rt)
    case StringLiteral(t) => rt.atom(Text(Quoted(t)))
    case NumberLiteral(d, u) => rt.atom(Text(Number(d, u)))
    case BooleanLiteral(b) => rt.atom(Text(Bool(b)))
    case UndefinedLiteral => rt.atom(Text(Undefined))
    case NullLiteral => rt.atom(Text(Null))
    case SubExpression(p, params, hash) =>
      if SurelyHelper(o, bp, p, true) then
        DenoteCall(p, DenoteParams(params, o, bp, rt), DenoteHash(hash, false, o, bp, rt), None, None, o, bp, rt)
      else rt.lambda(DenotePath(p, false, bp, rt))
  }

  function DenoteParam<V>(e: Expr, o: Options, bp: Scope, rt: Runtime<V>): Denoted<V>
    decreases e, 2
  {
    if o.stringParams then
      Denoted(if e.SubExpression? then Denote(e, o, bp, rt) else rt.atom(Text(StringModeValue(e))), rt.atom(Absent),
              rt.atom(Text(Quoted(TypeName(e)))), rt.atom(Context(if e.PathExpression? then e.path.depth else 0)))
    else
      Denoted(Denote(e, o, bp, rt), rt.atom(if o.trackIds then IdSlot(IdOf(e, bp)).code.atom else Absent),
              rt.atom(Absent), rt.atom(Absent))
  }

  /** Parameters in source order. */
  function DenoteParams<V>(params: seq<Expr>, o: Options, bp: Scope, rt: Runtime<V>): (r: seq<Denoted<V>>)
    ensures |r| == |params|
    decreases params
  {
    if params == [] then [] else [DenoteParam(params[0], o, bp, rt)] + DenoteParams(params[1..], o, bp, rt)
  }

  /** Each key with its own value; the first of equal keys counts. */
  function DenotePairs<V>(pairs: seq<Pair>, o: Options, bp: Scope, rt: Runtime<V>): map<string, Denoted<V>>
    decreases pairs
  {
    if pairs == [] then map[]
    else DenotePairs(pairs[1..], o, bp, rt)[pairs[0].key := DenoteParam(pairs[0].value, o, bp, rt)]
  }

  /** The keys whose value is a literal undefined, which object literals leave out. */
  function UndefinedKeys(pairs: seq<Pair>, o: Options): set<string> {
    if pairs == [] then {}
    else if pairs[0].value.UndefinedLiteral? && !o.stringParams then UndefinedKeys(pairs[1..], o) + {pairs[0].key}
    else UndefinedKeys(pairs[1..], o) - {pairs[0].key}
  }

  function PartMap<V>(m: map<string, Denoted<V>>, part: Part, dropped: set<string>): map<string, V> {
    map k | k in m && k !in dropped :: PickDenoted(m[k], part)
  }

  function DenoteHash<V>(hash: Hash, omitEmpty: bool, o: Options, bp: Scope, rt: Runtime<V>): Denoted<V>
    decreases hash
  {
    match hash
    case NoHash =>
      Denoted(rt.atom(if omitEmpty then Text(Undefined) else Braces), rt.atom(if o.trackIds then Braces else Absent),
              rt.atom(if o.stringParams then Braces else Absent), rt.atom(if o.stringParams then Braces else Absent))
    case Pairs(pairs) =>
      var m := DenotePairs(pairs, o, bp, rt);
      Denoted(rt.literal(PartMap(m, ValuePart, UndefinedKeys(pairs, o))),
              if o.trackIds then rt.literal(PartMap(m, IdPart, {})) else rt.atom(Absent),
              if o.stringParams then rt.literal(PartMap(m, TypePart, {})) else rt.atom(Absent),
              if o.stringParams then rt.literal(PartMap(m, ContextPart, {})) else rt.atom(Absent))
  }

  function ProgramAtom(p: Option<nat>, other: Option<nat>): Atom {
    if p.Some? then ProgramRef(p.value) else if other.Some? then Noop else NoProgram
  }

  function PickDenoted<V>(d: Denoted<V>, part: Part): V {
    match part
    case ValuePart => d.value
    case IdPart => d.id
    case TypePart => d.typ
    case ContextPart => d.context
  }

  function Each<V>(ds: seq<Denoted<V>>, part: Part): (r: seq<V>)
    ensures |r| == |ds|
  {
    if ds == [] then [] else [PickDenoted(ds[0], part)] + Each(ds[1..], part)
  }

  function DenoteOptions<V>(name: string, params: seq<Denoted<V>>, hash: Denoted<V>, program: Option<nat>,
                            inverse: Option<nat>,
                            o: Options, rt: Runtime<V>): CallArguments<V> {
    CallArguments(name, hash.value, hash.id, hash.typ, hash.context,
                  rt.atom(ProgramAtom(program, inverse)), rt.atom(ProgramAtom(inverse, program)),
                  if o.trackIds then Each(params, IdPart) else [],
                  if o.stringParams then Each(params, TypePart) else [],
                  if o.stringParams then Each(params, ContextPart) else [])
  }

  /** A definite helper call. */
  function DenoteCall<V>(p: Path, params: seq<Denoted<V>>, hash: Denoted<V>, program: Option<nat>, inverse: Option<nat>,
                         o: Options, bp: Scope, rt: Runtime<V>): V {
    if Known(o, HeadName(p)) then
      rt.call(rt.helper(HeadName(p)), Each(params, ValuePart),
              DenoteOptions(HeadName(p), params, hash, program, inverse, o, rt))
    else
      CallHelper(rt, SimpleId(p), p.original, DenotePath(p, true, bp, rt), Each(params, ValuePart),
                 DenoteOptions(p.original, params, hash, program, inverse, o, rt))
  }

  function AmbiguousOptions<V>(name: string, program: Option<nat>, inverse: Option<nat>, o: Options,
                               rt: Runtime<V>): CallArguments<V> {
    DenoteOptions(name, [], DenoteHash(NoHash, false, o, [], rt), program, inverse, o, rt)
  }

  function DenoteAmbiguous<V>(p: Path, program: Option<nat>, inverse: Option<nat>, o: Options, bp: Scope,
                              rt: Runtime<V>): V {
    CallAmbiguous(rt, HeadName(p), DenotePath(p, false, bp, rt), AmbiguousOptions(HeadName(p), program, inverse, o, rt))
  }

  /** A name that may be a helper's: a helper that the run-time has is called; otherwise the context's value stands,
      called if it is a function; without either, helperMissing takes its place. */
  lemma NameAsks<V>(name: string, path: V, a: CallArguments<V>, rt: Runtime<V>)
    ensures rt.truthy(rt.helper(name)) && !rt.isNull(rt.helper(name)) && rt.isFunction(rt.helper(name)) ==>
            CallAmbiguous(rt, name, path, a) == rt.call(rt.helper(name), [], a)
    ensures !rt.truthy(rt.helper(name)) && !rt.isNull(path) ==>
            CallAmbiguous(rt, name, path, a) == if rt.isFunction(path) then rt.call(path, [], a) else path
    ensures !rt.truthy(rt.helper(name)) && rt.isNull(path) && rt.isFunction(rt.helperMissing) ==>
            CallAmbiguous(rt, name, path, a) == rt.call(rt.helperMissing, [], a)
  {
  }

  /** A call with arguments calls the helper of that name if the name is simple and the run-time has one, otherwise what
      the context holds, otherwise helperMissing. */
  lemma CallAsks<V>(isSimple: bool, name: string, path: V, params: seq<V>, a: CallArguments<V>, rt: Runtime<V>)
    ensures isSimple && rt.truthy(rt.helper(name)) ==>
            CallHelper(rt, isSimple, name, path, params, a) == rt.call(rt.helper(name), params, a)
    ensures !(isSimple && rt.truthy(rt.helper(name))) && rt.truthy(path) ==>
            CallHelper(rt, isSimple, name, path, params, a) == rt.call(path, params, a)
    ensures !(isSimple && rt.truthy(rt.helper(name))) && !rt.truthy(path) ==>
            CallHelper(rt, isSimple, name, path, params, a) == rt.call(rt.helperMissing, params, a)
  {
  }

  /** `{{foo}}`, with foo neither a block parameter nor known nor excluded: a helper that the run-time has prints its
      result, whatever the context holds. */
  lemma HelperWins<V>(p: Path, escaped: bool, o: Options, bp: Scope, guid: nat, rt: Runtime<V>)
    requires |p.parts| == 1 && p.depth == 0 && !ScopedId(p.original) && !o.knownHelpersOnly
    requires !Known(o, p.parts[0]) && forall i :: 0 <= i < |bp| ==> !Declares(bp[i], p.parts[0])
    requires var f := rt.helper(p.parts[0]); rt.truthy(f) && !rt.isNull(f) && rt.isFunction(f)
    ensures var v := rt.call(rt.helper(p.parts[0]), [], AmbiguousOptions(p.parts[0], None, None, o, rt));
            DenoteStatement(MustacheStatement(p, [], NoHash, escaped), o, bp, guid, rt) ==
            [Value(if escaped && !o.noEscape then rt.escape(v) else if rt.isNull(v) then rt.atom(EmptyText) else v)]
  {
    hide AmbiguousOptions, CallAmbiguous;
    NameAsks(p.parts[0], DenotePath(p, false, bp, rt), AmbiguousOptions(p.parts[0], None, None, o, rt), rt);
  }

  function OrEmptyText<V>(rt: Runtime<V>, v: V): V {
    if rt.isNull(v) then rt.atom(EmptyText) else v
  }

  /** What an ambiguous block prints: a found helper's result, or blockHelperMissing of the value. */
  function AmbiguousBlock<V>(rt: Runtime<V>, name: string, v: V, a: CallArguments<V>): seq<Item<V>> {
    var w := if rt.truthy(rt.helper(name)) then v else rt.call(rt.blockHelperMissing, [v], a);
    if rt.isNull(w) then [] else [Value(w)]
  }

  /** A mustache: a helper's result, what a helper or else the context gives, or a value, called if it is a function. */
  function DenoteMustache<V>(p: Path, params: seq<Expr>, hash: Hash, o: Options, bp: Scope, rt: Runtime<V>): V {
    var args := params != [] || hash != NoHash;
    if SurelyHelper(o, bp, p, args) then
      DenoteCall(p, DenoteParams(params, o, bp, rt), DenoteHash(hash, false, o, bp, rt), None, None, o, bp, rt)
    else if PerhapsHelper(o, bp, p, args) then DenoteAmbiguous(p, None, None, o, bp, rt)
    else rt.lambda(DenotePath(p, false, bp, rt))
  }

  /** A block: `g` and `h` are the numbers of its program and its inverse. */
  function DenoteBlock<V>(p: Path, params: seq<Expr>, hash: Hash, g: Option<nat>, h: Option<nat>,
                          o: Options, bp: Scope, rt: Runtime<V>): seq<Item<V>> {
    var args := params != [] || hash != NoHash;
    if SurelyHelper(o, bp, p, args) then
      var v := DenoteCall(p, DenoteParams(params, o, bp, rt), DenoteHash(hash, false, o, bp, rt), g, h, o, bp, rt);
      [Value(OrEmptyText(rt, v))]
    else if PerhapsHelper(o, bp, p, args) then
      AmbiguousBlock(rt, HeadName(p), DenoteAmbiguous(p, g, h, o, bp, rt), AmbiguousOptions(HeadName(p), g, h, o, rt))
    else
      var v := rt.lambda(DenotePath(p, false, bp, rt));
      [Value(OrEmptyText(rt, rt.call(rt.blockHelperMissing, [v], AmbiguousOptions(p.original, g, h, o, rt))))]
  }

  /** The context of a partial: its parameter, or the current context, or undefined. */
  function PartialContext<V>(params: seq<Expr>, o: Options, bp: Scope, rt: Runtime<V>): Denoted<V> {
    if params == [] && o.explicitPartialContext then
      Denoted(rt.atom(Text(Undefined)), rt.atom(Absent), rt.atom(Absent), rt.atom(Absent))
    else DenoteParam(PartialParams(params, o)[0], o, bp, rt)
  }

  /** A partial gets its parameter or else the current context. */
  lemma PartialContextIs<V>(params: seq<Expr>, o: Options, bp: Scope, rt: Runtime<V>)
    ensures params != [] ==> PartialContext(params, o, bp, rt) == DenoteParam(params[0], o, bp, rt)
    ensures params == [] && !o.explicitPartialContext && !o.stringParams ==>
            PartialContext(params, o, bp, rt).value == rt.atom(Context(0))
    ensures params == [] && o.explicitPartialContext ==>
            PartialContext(params, o, bp, rt).value == rt.atom(Text(Undefined))
  {
  }

  function DenoteCallee<V>(partial: PartialName, o: Options, bp: Scope, rt: Runtime<V>): V {
    match partial
    case Named(name) => rt.partial(name)
    case Dynamic(call) => Denote(call, o, bp, rt)
  }

  function CalleeName(partial: PartialName): string { if partial.Named? then partial.name else "" }

  function DenotePartial<V>(partial: PartialName, params: seq<Expr>, hash: Hash, g: Option<nat>, indent: string,
                            o: Options, bp: Scope, rt: Runtime<V>): seq<Item<V>> {
    var context := PartialContext(params, o, bp, rt);
    var options := DenoteOptions(CalleeName(partial), [context], DenoteHash(hash, true, o, bp, rt), g, None, o, rt);
    (if o.preventIndent then Chars(indent) else []) +
    [Value(OrEmptyText(rt, rt.invokePartial(DenoteCallee(partial, o, bp, rt), context.value, options,
                                            if o.preventIndent then "" else indent)))]
  }

  /** What one statement adds to the output; `guid` is the number of its first nested program. */
  function DenoteStatement<V>(s: Statement, o: Options, bp: Scope, guid: nat, rt: Runtime<V>): seq<Item<V>> {
    match s
    case MustacheStatement(p, params, hash, escaped) =>
      var v := DenoteMustache(p, params, hash, o, bp, rt);
      [Value(if escaped && !o.noEscape then rt.escape(v) else OrEmptyText(rt, v))]
    case BlockStatement(p, params, hash, program, inverse) =>
      DenoteBlock(p, params, hash, Guid(program, guid), Guid(inverse, guid + if program.Some? then 1 else 0), o, bp, rt)
    case PartialStatement(partial, params, hash, program, indent) =>
      DenotePartial(partial, params, hash, Guid(program, guid), indent, o, bp, rt)
    case Decorator(_, _, _, _) => []
    case ContentStatement(content) => Chars(content)
    case CommentStatement => []
  }

  function DenoteBody<V>(body: seq<Statement>, o: Options, bp: Scope, guid: nat, rt: Runtime<V>): seq<Item<V>>
    decreases |body|
  {
    if body == [] then [] else
      DenoteStatement(body[0], o, bp, guid, rt) +
      DenoteBody(body[1..], o, bp, guid + |EmitStatement(body[0], o, bp, guid).children|, rt)
  }
}
