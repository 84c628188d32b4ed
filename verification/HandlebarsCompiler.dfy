/** The Handlebars 4.0.5 compiler front: the syntax tree, the opcodes each node
    emits, and the Compiler object that collects them. */
module HandlebarsCompiler {
  import opened Wrappers
  import opened Strings

  // ---------- Syntax ----------

  datatype Path = Path(data: bool, depth: nat, parts: seq<string>, original: string)

  /** A number keeps its text, and its value when that is a whole number below 2^32. */
  datatype Expr =
    | PathExpression(path: Path)
    | StringLiteral(text: string)
    | NumberLiteral(digits: string, uint32: Option<nat>)
    | BooleanLiteral(value: bool)
    | UndefinedLiteral
    | NullLiteral
    | SubExpression(callee: Path, params: seq<Expr>, hash: Hash)

  datatype Hash = NoHash | Pairs(pairs: seq<Pair>)

  datatype Pair = Pair(key: string, value: Expr)

  datatype PartialName = Named(name: string) | Dynamic(call: Expr)

  datatype Statement =
    | MustacheStatement(path: Path, params: seq<Expr>, hash: Hash, escaped: bool)
    | BlockStatement(path: Path, params: seq<Expr>, hash: Hash,
                     program: Option<Program>, inverse: Option<Program>)
    | PartialStatement(partial: PartialName, params: seq<Expr>, hash: Hash,
                       program: Option<Program>, indent: string)
    | Decorator(path: Path, params: seq<Expr>, hash: Hash, program: Option<Program>)
    | ContentStatement(content: string)
    | CommentStatement

  datatype Program = Program(body: seq<Statement>, blockParams: Option<seq<string>>)

  datatype Options = Options(
    stringParams: bool, trackIds: bool, knownHelpers: map<string, bool>, knownHelpersOnly: bool,
    noEscape: bool, explicitPartialContext: bool, preventIndent: bool)

  /** The block parameters in scope, innermost program first. */
  type Scope = seq<Option<seq<string>>>

  const BUILTINS: set<string> :=
    {"helperMissing", "blockHelperMissing", "each", "if", "unless", "with", "log", "lookup"}

  /** What every object has: the known helpers are kept on an object and looked up by name. */
  const INHERITED: set<string> :=
    {"constructor", "toString", "toLocaleString", "valueOf", "hasOwnProperty", "isPrototypeOf", "propertyIsEnumerable",
     "__proto__"}

  predicate Known(o: Options, name: string) {
    if name in o.knownHelpers && name != "__proto__" then o.knownHelpers[name] else name in BUILTINS + INHERITED
  }

  /** What the caller says of a name counts, except for "__proto__", which cannot be set; otherwise the built-in helpers
      are known, and so is every name that any object has. */
  lemma KnownIff(o: Options, name: string)
    ensures name in o.knownHelpers && name != "__proto__" ==> (Known(o, name) <==> o.knownHelpers[name])
    ensures name !in o.knownHelpers || name == "__proto__" ==>
            (Known(o, name) <==>
             name in {"helperMissing", "blockHelperMissing", "each", "if", "unless", "with", "log", "lookup"} ||
             name in {"constructor", "toString", "toLocaleString", "valueOf", "hasOwnProperty", "isPrototypeOf",
                      "propertyIsEnumerable", "__proto__"})
  {
  }

  predicate WordChar(c: char) { 'a' <= c <= 'z' || 'A' <= c <= 'Z' || '0' <= c <= '9' || c == '_' }

  predicate ThisEndsWord(s: string, i: nat) {
    i + 4 <= |s| && s[i..i + 4] == "this" && (i + 4 == |s| || !WordChar(s[i + 4]))
  }

  /** The expression /^\.|this\b/: a leading dot, or the word end of "this" anywhere. */
  predicate ScopedId(original: string) {
    (original != "" && original[0] == '.') || exists i :: 0 <= i < |original| && ThisEndsWord(original, i)
  }

  /** Scoped is what starts with a dot, or has a "this" that no letter, digit or underscore follows. */
  lemma ScopedIdIff(original: string)
    ensures ScopedId(original) <==>
      (exists rest: string :: original == "." + rest) ||
      (exists a: string, b: string :: original == a + "this" + b && !StartsAsWord(b))
  {
    if original != "" && original[0] == '.' {
      assert original == "." + original[1..];
    }
    if i :| 0 <= i < |original| && ThisEndsWord(original, i) {
      assert original == original[..i] + "this" + original[i + 4..];
      assert !StartsAsWord(original[i + 4..]);
    }
    if a: string, b: string :| original == a + "this" + b && !StartsAsWord(b) {
      assert original[|a|..|a| + 4] == "this" && original[|a| + 4..] == b;
      assert ThisEndsWord(original, |a|);
    }
  }

  /** Character codes of the digits, the two alphabets and the underscore. */
  predicate StartsAsWord(s: string) {
    s != "" && var c := s[0] as int; 48 <= c <= 57 || 65 <= c <= 90 || c == 95 || 97 <= c <= 122
  }

  predicate SimpleId(p: Path) { |p.parts| == 1 && !ScopedId(p.original) && p.depth == 0 }

  /** `parts[0]` as a property name. */
  function HeadName(p: Path): string { if p.parts == [] then "undefined" else p.parts[0] }

  function IndexOf(names: seq<string>, name: string): (r: Option<nat>)
    ensures r.Some? ==> r.value < |names| && names[r.value] == name && name !in names[..r.value]
    ensures r.None? ==> name !in names
  {
    if names == [] then None
    else if names[0] == name then Some(0)
    else
      var r := IndexOf(names[1..], name);
      if r.Some? then
        assert names[..1 + r.value] == [names[0]] + names[1..][..r.value];
        Some(1 + r.value)
      else None
  }

  predicate Declares(names: Option<seq<string>>, name: string) { names.Some? && name in names.value }

  /** The innermost program that declares the name, and the first position there. */
  function BlockParamIndex(bp: Scope, name: string): Option<(nat, nat)> {
    if bp == [] then None else
      var here := if bp[0].Some? then IndexOf(bp[0].value, name) else None;
      if here.Some? then Some((0, here.value)) else
        var outer := BlockParamIndex(bp[1..], name);
        if outer.Some? then Some((outer.value.0 + 1, outer.value.1)) else None
  }

  /** A block parameter is found in the innermost program that declares it, at its first position there. */
  lemma {:induction false} InnermostDeclared(bp: Scope, name: string)
    ensures var r := BlockParamIndex(bp, name);
      && (r.None? <==> forall i :: 0 <= i < |bp| ==> !Declares(bp[i], name))
      && (r.Some? ==>
            var (d, i) := r.value;
            && d < |bp| && bp[d].Some? && i < |bp[d].value| && bp[d].value[i] == name && name !in bp[d].value[..i]
            && forall e :: 0 <= e < d ==> !Declares(bp[e], name))
  {
    if bp != [] {
      InnermostDeclared(bp[1..], name);
      assert forall i :: 0 < i < |bp| ==> bp[i] == bp[1..][i - 1];
    }
  }

  datatype Kind = Simple | Helper | Ambiguous

  /** helperExpression: a subexpression, or a mustache or block with parameters or a hash. */
  predicate HelperExpression(isSub: bool, params: seq<Expr>, hash: Hash) {
    isSub || params != [] || hash.Pairs?
  }

  function ClassifySexpr(o: Options, bp: Scope, p: Path, isHelperExpression: bool): Kind {
    var isSimple := SimpleId(p);
    var isBlockParam := isSimple && BlockParamIndex(bp, p.parts[0]).Some?;
    var isHelper := !isBlockParam && isHelperExpression;
    var isEligible := !isBlockParam && (isHelper || isSimple);
    if isEligible && !isHelper then
      if Known(o, HeadName(p)) then Helper else if o.knownHelpersOnly then Simple else Ambiguous
    else if isHelper then Helper
    else if isEligible then Ambiguous
    else Simple
  }

  /** One name, neither scoped nor in another context. */
  predicate OneName(p: Path) { |p.parts| == 1 && p.depth == 0 && !ScopedId(p.original) }

  predicate NamesBlockParam(p: Path, bp: Scope) {
    OneName(p) && exists i :: 0 <= i < |bp| && Declares(bp[i], p.parts[0])
  }

  /** The path certainly names a helper: it is given arguments, or is a known name. */
  predicate SurelyHelper(o: Options, bp: Scope, p: Path, args: bool) {
    !NamesBlockParam(p, bp) && (args || (OneName(p) && Known(o, p.parts[0])))
  }

  /** The path names a helper if the run-time has one of that name. */
  predicate PerhapsHelper(o: Options, bp: Scope, p: Path, args: bool) {
    !args && OneName(p) && !NamesBlockParam(p, bp) && !Known(o, p.parts[0]) && !o.knownHelpersOnly
  }

  /** The three kinds, by what is written and what is in scope. */
  lemma KindIff(o: Options, bp: Scope, p: Path, args: bool)
    ensures ClassifySexpr(o, bp, p, args).Helper? <==> SurelyHelper(o, bp, p, args)
    ensures ClassifySexpr(o, bp, p, args).Ambiguous? <==> PerhapsHelper(o, bp, p, args)
  {
    InnermostDeclared(bp, HeadName(p));
  }

  // ---------- Opcodes ----------

  datatype IdKind = BlockParamId(depth: nat, index: nat,
                                 child: string) | PathId(name: string) | SubExpressionId | OtherId

  datatype Opcode =
    | GetContext(depth: nat)
    | PushContext
    | LookupBlockParam(depth: nat, index: nat, parts: seq<string>)
    | LookupData(depth: nat, parts: seq<string>, strict: bool)
    | LookupOnContext(parts: seq<string>, falsy: bool, strict: bool, scoped: bool)
    | PushString(text: string)
    | PushLiteral(literal: Literal)
    | PushStringParam(param: Literal, typeName: string)
    | PushId(id: IdKind)
    | PushProgram(guid: Option<nat>)
    | EmptyHash(omitEmpty: bool)
    | PushHash
    | AssignToHash(key: string)
    | PopHash
    | ResolvePossibleLambda
    | InvokeKnownHelper(paramSize: nat, name: string)
    | InvokeHelper(paramSize: nat, name: string, isSimple: bool)
    | InvokeAmbiguous(name: string, isBlock: bool)
    | InvokePartial(isDynamic: bool, name: string, indent: string)
    | RegisterDecorator(paramSize: nat, name: string)
    | BlockValue(name: string)
    | AmbiguousBlockValue
    | Append
    | AppendEscaped
    | AppendContent(content: string)

  /** A literal as it stands in the generated source: a quoted string or raw text. */
  datatype Literal =
    | Quoted(text: string)
    | Number(digits: string, uint32: Option<nat>)
    | Bool(value: bool)
    | Undefined
    | Null

  // ---------- Emission ----------

  function StripDots(s: string): string {
    if |s| >= 2 && s[..2] == "./" then StripDots(s[2..])
    else if |s| >= 3 && s[..3] == "../" then StripDots(s[3..])
    else s
  }

  predicate IsStep(s: string) { s == "./" || s == "../" }

  /** What is stripped is a run of "./" and "../", and none is left in front. */
  lemma {:induction false} StripDotsIs(s: string) returns (steps: seq<string>)
    ensures s == Join(steps, "") + StripDots(s) && forall i :: 0 <= i < |steps| ==> IsStep(steps[i])
    ensures forall rest: string :: StripDots(s) != "./" + rest && StripDots(s) != "../" + rest
    decreases |s|
  {
    hide Join;
    var n := if |s| >= 2 && s[..2] == "./" then 2 else if |s| >= 3 && s[..3] == "../" then 3 else 0;
    if n == 0 {
      steps := [];
      JoinSteps([], []);
      forall rest: string
        ensures s != "./" + rest && s != "../" + rest
      {
        assert ("./" + rest)[..2] == "./" && ("../" + rest)[..3] == "../";
      }
    } else {
      var more := StripDotsIs(s[n..]);
      steps := [s[..n]] + more;
      JoinSteps([s[..n]], more);
      assert s == s[..n] + s[n..];
    }
  }

  lemma JoinSteps(a: seq<string>, b: seq<string>)
    requires |a| <= 1
    ensures Join([], "") == ""
    ensures a != [] ==> Join(a + b, "") == a[0] + Join(b, "")
  {
    if a != [] {
      assert (a + b)[1..] == b;
      assert a[0] + "" == a[0];
    }
  }

  /** In stringParams mode a text is passed with its steps stripped and its slashes as dots, other literals as they
      are, and nothing for what is no literal and no path. */
  lemma StringModeValueIs(e: Expr)
    ensures e.PathExpression? ==> StringModeValue(e) == Quoted(DotSlashes(StripDots(e.path.original)))
    ensures e.StringLiteral? ==> StringModeValue(e) == Quoted(DotSlashes(StripDots(e.text)))
    ensures e.NumberLiteral? ==> StringModeValue(e) == Number(e.digits, e.uint32)
    ensures e.BooleanLiteral? ==> StringModeValue(e) == Bool(e.value)
    ensures e.UndefinedLiteral? || e.NullLiteral? || e.SubExpression? ==> StringModeValue(e) == Quoted("")
  {
  }

  function DotSlashes(s: string): (r: string)
    ensures |r| == |s| && forall i :: 0 <= i < |s| ==> r[i] == if s[i] == '/' then '.' else s[i]
  {
    if s == "" then "" else [if s[0] == '/' then '.' else s[0]] + DotSlashes(s[1..])
  }

  /** The value of a parameter in stringParams mode. */
  function StringModeValue(e: Expr): Literal {
    match e
    case PathExpression(p) => Quoted(DotSlashes(StripDots(p.original)))
    case StringLiteral(t) => Quoted(DotSlashes(StripDots(t)))
    case NumberLiteral(d, u) => Number(d, u)
    case BooleanLiteral(b) => Bool(b)
    case _ => Quoted("")
  }

  function TypeName(e: Expr): (r: string)
    ensures (e.PathExpression? <==> r == "PathExpression") && (e.SubExpression? <==> r == "SubExpression")
    ensures (e.StringLiteral? <==> r == "StringLiteral") && (e.NumberLiteral? <==> r == "NumberLiteral")
    ensures (e.BooleanLiteral? <==> r == "BooleanLiteral") && (e.NullLiteral? <==> r == "NullLiteral")
    ensures e.UndefinedLiteral? <==> r == "UndefinedLiteral"
  {
    match e
    case PathExpression(_) => "PathExpression"
    case StringLiteral(_) => "StringLiteral"
    case NumberLiteral(_, _) => "NumberLiteral"
    case BooleanLiteral(_) => "BooleanLiteral"
    case UndefinedLiteral => "UndefinedLiteral"
    case NullLiteral => "NullLiteral"
    case SubExpression(_, _, _) => "SubExpression"
  }

  /** The id text of a path: without a leading `this`, `this.`, `./` or a lone dot. */
  function IdText(original: string): string {
    var a := if original == "this" then "" else if |original| > 5 && original[..5] == "this." then original[5..]
             else if original == "this." then "" else original;
    var b := if |a| >= 2 && a[..2] == "./" then a[2..] else a;
    if b == "." then "" else b
  }

  predicate Marked(s: string) {
    (|s| >= 2 && s[..2] == "./") || s == "." || s == "this" || (|s| >= 5 && s[..5] == "this.")
  }

  /** Of the forms of `this` nothing or what follows them is left; an unmarked path is its own id. */
  lemma IdTextIs(x: string)
    requires !Marked(x)
    ensures IdText(x) == x && IdText("./" + x) == x && IdText("this." + x) == x && IdText("this." + ("./" + x)) == x
    ensures IdText("this") == "" && IdText(".") == "" && IdText("./.") == "" && IdText("this..") == ""
  {
    assert ("./" + x)[..2] == "./" && ("./" + x)[2..] == x;
    assert ("this." + x)[..5] == "this." && ("this." + x)[5..] == x;
    assert ("this." + ("./" + x))[5..] == "./" + x;
  }

  function IdOf(e: Expr, bp: Scope): IdKind {
    match e
    case PathExpression(p) =>
      var index := if !ScopedId(p.original) && p.depth == 0 && p.parts != [] then BlockParamIndex(bp, p.parts[0])
        else None;
      if index.Some? then BlockParamId(index.value.0, index.value.1, Join(p.parts[1..], "."))
      else PathId(IdText(p.original))
    case SubExpression(_, _, _) => SubExpressionId
    case _ => OtherId
  }

  /** The id of an argument: a block parameter by where it is declared, with the rest of the path; any other path by its
      text; a subexpression and other literals by their kind. */
  lemma IdOfIs(e: Expr, bp: Scope)
    ensures e.PathExpression? && e.path.depth == 0 && !ScopedId(e.path.original) && e.path.parts != [] &&
            (exists i :: 0 <= i < |bp| && Declares(bp[i], e.path.parts[0])) ==>
              var id := IdOf(e, bp);
              && id.BlockParamId? && id.depth < |bp| && bp[id.depth].Some? && id.index < |bp[id.depth].value|
              && bp[id.depth].value[id.index] == e.path.parts[0] && id.child == Join(e.path.parts[1..], ".")
    ensures e.PathExpression? && (e.path.depth != 0 || ScopedId(e.path.original) || e.path.parts == [] ||
                                  forall i :: 0 <= i < |bp| ==> !Declares(bp[i], e.path.parts[0])) ==>
              IdOf(e, bp) == PathId(IdText(e.path.original))
    ensures IdOf(e, bp) == SubExpressionId <==> e.SubExpression?
    ensures IdOf(e, bp) == OtherId <==> !e.SubExpression? && !e.PathExpression?
  {
    if e.PathExpression? && e.path.parts != [] {
      InnermostDeclared(bp, e.path.parts[0]);
    }
    hide BlockParamIndex, ScopedId, IdText, Join;
  }

  function EmitPath(p: Path, falsy: bool, strict: bool, bp: Scope): seq<Opcode> {
    var name := HeadName(p);
    var blockParam := if p.depth == 0 && !ScopedId(p.original) && p.parts != [] then BlockParamIndex(bp, name)
      else None;
    [GetContext(p.depth)] + [
      if blockParam.Some? then LookupBlockParam(blockParam.value.0, blockParam.value.1, p.parts)
      else if p.parts == [] || p.parts[0] == "" then PushContext
      else if p.data then LookupData(p.depth, p.parts, strict)
      else LookupOnContext(p.parts, falsy, strict, ScopedId(p.original))]
  }

  function EmitExpr(e: Expr, o: Options, bp: Scope): seq<Opcode>
    decreases e, 1
  {
    match e
    case PathExpression(p) => EmitPath(p, false, false, bp)
    case StringLiteral(t) => [PushString(t)]
    case NumberLiteral(d, u) => [PushLiteral(Number(d, u))]
    case BooleanLiteral(b) => [PushLiteral(Bool(b))]
    case UndefinedLiteral => [PushLiteral(Undefined)]
    case NullLiteral => [PushLiteral(Null)]
    case SubExpression(p, params, hash) =>
      match ClassifySexpr(o, bp, p, true)
      case Simple => EmitPath(p, false, true, bp) + [ResolvePossibleLambda]
      case Ambiguous => EmitAmbiguous(p, None, None, bp)
      case Helper =>
        EmitParams(params, o, bp) + [PushProgram(None), PushProgram(None)] + EmitHash(hash, false, o, bp) +
        EmitInvoke(p, |params|, o, bp)
  }

  function EmitAmbiguous(p: Path, program: Option<nat>, inverse: Option<nat>, bp: Scope): seq<Opcode> {
    [GetContext(p.depth), PushProgram(program), PushProgram(inverse)] + EmitPath(p, false, true, bp) +
    [InvokeAmbiguous(HeadName(p), program.Some? || inverse.Some?)]
  }

  /** The end of helperSexpr, after its arguments. */
  function EmitInvoke(p: Path, paramSize: nat, o: Options, bp: Scope): seq<Opcode> {
    if Known(o, HeadName(p)) then [InvokeKnownHelper(paramSize, HeadName(p))]
    else EmitPath(p, true, true, bp) + [InvokeHelper(paramSize, p.original, SimpleId(p))]
  }

  function EmitParam(e: Expr, o: Options, bp: Scope): seq<Opcode>
    decreases e, 2
  {
    if o.stringParams then
      [GetContext(if e.PathExpression? then e.path.depth else 0), PushStringParam(StringModeValue(e), TypeName(e))] +
      (if e.SubExpression? then EmitExpr(e, o, bp) else [])
    else
      (if o.trackIds then [PushId(IdOf(e, bp))] else []) + EmitExpr(e, o, bp)
  }

  function EmitParams(params: seq<Expr>, o: Options, bp: Scope): seq<Opcode>
    decreases params
  {
    if params == [] then [] else EmitParam(params[0], o, bp) + EmitParams(params[1..], o, bp)
  }

  function EmitValues(pairs: seq<Pair>, o: Options, bp: Scope): seq<Opcode>
    decreases pairs
  {
    if pairs == [] then [] else EmitParam(pairs[0].value, o, bp) + EmitValues(pairs[1..], o, bp)
  }

  /** `while (i--)`: the keys, last pair first. */
  function EmitKeys(pairs: seq<Pair>): seq<Opcode> {
    if pairs == [] then [] else EmitKeys(pairs[1..]) + [AssignToHash(pairs[0].key)]
  }

  function EmitHash(hash: Hash, omitEmpty: bool, o: Options, bp: Scope): seq<Opcode>
    decreases hash
  {
    if hash.Pairs? then [PushHash] + EmitValues(hash.pairs, o, bp) + EmitKeys(hash.pairs) + [PopHash]
    else [EmptyHash(omitEmpty)]
  }

  /** setupFullMustacheParams. */
  function EmitArguments(params: seq<Expr>, program: Option<nat>, inverse: Option<nat>, hash: Hash,
                         omitEmpty: bool, o: Options, bp: Scope): seq<Opcode> {
    EmitParams(params, o, bp) + [PushProgram(program), PushProgram(inverse)] + EmitHash(hash, omitEmpty, o, bp)
  }

  // ---------- Statements and programs ----------

  /** A compiled program: its opcodes and the programs nested in it, by guid. */
  datatype Environment = Environment(opcodes: seq<Opcode>, children: seq<Environment>, isSimple: bool, blockParams: nat)

  datatype Emission = Emission(opcodes: seq<Opcode>, children: seq<Environment>)

  function CompileProgram(p: Program, o: Options, bp: Scope): Environment
    decreases p
  {
    var e := EmitBody(p.body, o, [p.blockParams] + bp, 0);
    Environment(e.opcodes, e.children, |p.body| == 1, if p.blockParams.Some? then |p.blockParams.value| else 0)
  }

  function EmitBody(body: seq<Statement>, o: Options, bp: Scope, guid: nat): Emission
    decreases body
  {
    if body == [] then Emission([], []) else
      var first := EmitStatement(body[0], o, bp, guid);
      var rest := EmitBody(body[1..], o, bp, guid + |first.children|);
      Emission(first.opcodes + rest.opcodes, first.children + rest.children)
  }

  /** The environment of an optional program, as a list of children. */
  function CompileOptional(p: Option<Program>, o: Options, bp: Scope): (c: seq<Environment>)
    ensures |c| == if p.Some? then 1 else 0
    decreases p
  {
    if p.Some? then [CompileProgram(p.value, o, bp)] else []
  }

  function Guid(p: Option<Program>, guid: nat): Option<nat> {
    if p.Some? then Some(guid) else None
  }

  function EmitStatement(s: Statement, o: Options, bp: Scope, guid: nat): Emission
    decreases s
  {
    match s
    case MustacheStatement(p, params, hash, escaped) =>
      Emission(EmitMustache(p, params, hash, o, bp) + [if escaped && !o.noEscape then AppendEscaped else Append], [])
    case BlockStatement(p, params, hash, program, inverse) =>
      var children := CompileOptional(program, o, bp);
      var g, h := Guid(program, guid), Guid(inverse, guid + |children|);
      Emission(EmitBlock(p, params, hash, g, h, o, bp), children + CompileOptional(inverse, o, bp))
    case PartialStatement(partial, params, hash, program, indent) =>
      Emission(EmitPartial(partial, params, hash, Guid(program, guid), indent, o, bp), CompileOptional(program, o, bp))
    case Decorator(p, params, hash, program) =>
      Emission(EmitArguments(params, Guid(program, guid), None, hash, false, o, bp) +
               [RegisterDecorator(|params|, p.original)],
               CompileOptional(program, o, bp))
    case ContentStatement(content) => Emission(if content == "" then [] else [AppendContent(content)], [])
    case CommentStatement => Emission([], [])
  }

  /** SubExpression applied to a mustache. */
  function EmitMustache(p: Path, params: seq<Expr>, hash: Hash, o: Options, bp: Scope): seq<Opcode> {
    match ClassifySexpr(o, bp, p, HelperExpression(false, params, hash))
    case Simple => EmitPath(p, false, true, bp) + [ResolvePossibleLambda]
    case Ambiguous => EmitAmbiguous(p, None, None, bp)
    case Helper => EmitArguments(params, None, None, hash, false, o, bp) + EmitInvoke(p, |params|, o, bp)
  }

  function EmitBlock(p: Path, params: seq<Expr>, hash: Hash, program: Option<nat>, inverse: Option<nat>,
                     o: Options, bp: Scope): seq<Opcode> {
    (match ClassifySexpr(o, bp, p, HelperExpression(false, params, hash))
     case Helper => EmitArguments(params, program, inverse, hash, false, o, bp) + EmitInvoke(p, |params|, o, bp)
     case Simple =>
       EmitPath(p, false, true, bp) + [ResolvePossibleLambda, PushProgram(program), PushProgram(inverse),
                                       EmptyHash(false),
                                 BlockValue(p.original)]
     case Ambiguous =>
       EmitAmbiguous(p, program, inverse, bp) + [PushProgram(program), PushProgram(inverse), EmptyHash(false),
                                                 AmbiguousBlockValue]) + [Append]
  }

  /** The context a partial without parameters gets. */
  function PartialParams(params: seq<Expr>, o: Options): seq<Expr> {
    if params == [] && !o.explicitPartialContext then [PathExpression(Path(false, 0, [], ""))] else params
  }

  function EmitPartial(partial: PartialName, params: seq<Expr>, hash: Hash, program: Option<nat>,
                       indent: string, o: Options, bp: Scope): seq<Opcode> {
    (if params == [] && o.explicitPartialContext then [PushLiteral(Undefined)] else []) +
    (if partial.Dynamic? then EmitExpr(partial.call, o, bp) else []) +
    EmitArguments(PartialParams(params, o), program, None, hash, true, o, bp) +
    (if o.preventIndent && indent != "" then [AppendContent(indent)] else []) +
    [InvokePartial(partial.Dynamic?, if partial.Named? then partial.name else "", if o.preventIndent then ""
                   else indent),
     Append]
  }
}
