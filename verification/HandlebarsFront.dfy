/** The Compiler object: `opcodes`, `children`, `guid` and the shared `blockParams` are
    fields that visiting a node updates. Each method is proved against the emission
    functions of HandlebarsCompiler; not ok stands for a thrown exception. */
module HandlebarsFront {
  import opened Wrappers
  import opened HandlebarsCompiler

  // ---------- Accepted templates ----------

  /** No unknown helper is called under knownHelpersOnly. */
  predicate AcceptsExpr(e: Expr, o: Options, bp: Scope)
    decreases e, 1
  {
    e.SubExpression? && ClassifySexpr(o, bp, e.callee, true).Helper? ==>
      AcceptsParams(e.params, o, bp) && AcceptsHash(e.hash, o, bp) &&
      (Known(o, HeadName(e.callee)) || !o.knownHelpersOnly)
  }

  predicate AcceptsParams(params: seq<Expr>, o: Options, bp: Scope)
    decreases params
  {
    params == [] || (AcceptsExpr(params[0], o, bp) && AcceptsParams(params[1..], o, bp))
  }

  predicate AcceptsPairs(pairs: seq<Pair>, o: Options, bp: Scope)
    decreases pairs
  {
    pairs == [] || (AcceptsExpr(pairs[0].value, o, bp) && AcceptsPairs(pairs[1..], o, bp))
  }

  predicate AcceptsHash(hash: Hash, o: Options, bp: Scope)
    decreases hash
  {
    hash.Pairs? ==> AcceptsPairs(hash.pairs, o, bp)
  }

  predicate AcceptsCall(isSub: bool, p: Path, params: seq<Expr>, hash: Hash, o: Options, bp: Scope) {
    ClassifySexpr(o, bp, p, HelperExpression(isSub, params, hash)).Helper? ==>
      AcceptsParams(params, o, bp) && AcceptsHash(hash, o, bp) && (Known(o, HeadName(p)) || !o.knownHelpersOnly)
  }

  predicate AcceptsStatement(m: Statement, o: Options, bp: Scope)
    decreases m
  {
    match m
    case MustacheStatement(p, params, hash, _) => AcceptsCall(false, p, params, hash, o, bp)
    case BlockStatement(p, params, hash, program, inverse) =>
      AcceptsOptional(program, o, bp) && AcceptsOptional(inverse, o, bp) && AcceptsCall(false, p, params, hash, o, bp)
    case PartialStatement(partial, params, hash, program, _) =>
      && AcceptsOptional(program, o, bp) && |params| <= 1 && (partial.Dynamic? ==> AcceptsExpr(partial.call, o, bp))
      && AcceptsParams(params, o, bp) && AcceptsHash(hash, o, bp)
    case Decorator(_, params, hash, program) =>
      AcceptsOptional(program, o, bp) && AcceptsParams(params, o, bp) && AcceptsHash(hash, o, bp)
    case _ => true
  }

  predicate AcceptsOptional(p: Option<Program>, o: Options, bp: Scope)
    decreases p
  {
    p.Some? ==> AcceptsProgram(p.value, o, bp)
  }

  predicate AcceptsProgram(p: Program, o: Options, bp: Scope)
    decreases p
  {
    AcceptsBody(p.body, o, [p.blockParams] + bp)
  }

  predicate AcceptsBody(body: seq<Statement>, o: Options, bp: Scope)
    decreases body
  {
    body == [] || (AcceptsStatement(body[0], o, bp) && AcceptsBody(body[1..], o, bp))
  }

  // ---------- The compiler ----------

  class Compiler {
    const options: Options
    var blockParams: Scope
    var opcodes: seq<Opcode>
    var children: seq<Environment>
    var guid: nat

    constructor (options: Options, blockParams: Scope)
      ensures this.options == options && this.blockParams == blockParams && opcodes == [] && children == [] && guid == 0
    {
      this.options, this.blockParams := options, blockParams;
      opcodes, children, guid := [], [], 0;
    }

    method Opcode(op: HandlebarsCompiler.Opcode)
      modifies `opcodes
      ensures opcodes == old(opcodes) + [op]
    {
      opcodes := opcodes + [op];
    }

    method BlockParamIndexOf(name: string) returns (r: Option<(nat, nat)>)
      ensures r == BlockParamIndex(blockParams, name)
    {
      for depth := 0 to |blockParams|
        invariant BlockParamIndex(blockParams, name) == Deeper(BlockParamIndex(blockParams[depth..], name), depth)
      {
        assert blockParams[depth..][1..] == blockParams[depth + 1..];
        if blockParams[depth].Some? {
          var param := IndexOf(blockParams[depth].value, name);
          if param.Some? {
            return Some((depth, param.value));
          }
        }
      }
      return None;
    }

    method Classify(isSub: bool, p: Path, params: seq<Expr>, hash: Hash) returns (kind: Kind)
      ensures kind == ClassifySexpr(options, blockParams, p, HelperExpression(isSub, params, hash))
      ensures var args := isSub || params != [] || hash != NoHash;
        && (kind.Helper? <==> SurelyHelper(options, blockParams, p, args))
        && (kind.Ambiguous? <==> PerhapsHelper(options, blockParams, p, args))
    {
      KindIff(options, blockParams, p, isSub || params != [] || hash != NoHash);
      hide BlockParamIndex, SurelyHelper, PerhapsHelper;
      var isSimple := SimpleId(p);
      var isBlockParam := false;
      if isSimple {
        var index := BlockParamIndexOf(p.parts[0]);
        isBlockParam := index.Some?;
      }
      var isHelper := !isBlockParam && HelperExpression(isSub, params, hash);
      var isEligible := !isBlockParam && (isHelper || isSimple);
      if isEligible && !isHelper {
        if Known(options, HeadName(p)) {
          isHelper := true;
        } else if options.knownHelpersOnly {
          isEligible := false;
        }
      }
      kind := if isHelper then Helper else if isEligible then Ambiguous else Simple;
    }

    method PathExpression(p: Path, falsy: bool, strict: bool)
      modifies `opcodes
      ensures opcodes == old(opcodes) + EmitPath(p, falsy, strict, blockParams)
    {
      Opcode(GetContext(p.depth));
      var blockParam: Option<(nat, nat)> := None;
      if p.depth == 0 && !ScopedId(p.original) && p.parts != [] {
        blockParam := BlockParamIndexOf(HeadName(p));
      }
      if blockParam.Some? {
        Opcode(LookupBlockParam(blockParam.value.0, blockParam.value.1, p.parts));
      } else if p.parts == [] || p.parts[0] == "" {
        Opcode(PushContext);
      } else if p.data {
        Opcode(LookupData(p.depth, p.parts, strict));
      } else {
        Opcode(LookupOnContext(p.parts, falsy, strict, ScopedId(p.original)));
      }
    }

    method SimpleSexpr(p: Path)
      modifies `opcodes
      ensures opcodes == old(opcodes) + (EmitPath(p, false, true, blockParams) + [ResolvePossibleLambda])
    {
      PathExpression(p, false, true);
      Opcode(ResolvePossibleLambda);
    }

    method AmbiguousSexpr(p: Path, program: Option<nat>, inverse: Option<nat>)
      modifies `opcodes
      ensures opcodes == old(opcodes) + EmitAmbiguous(p, program, inverse, blockParams)
    {
      hide EmitPath;
      Opcode(GetContext(p.depth));
      Opcode(PushProgram(program));
      Opcode(PushProgram(inverse));
      assert opcodes == old(opcodes) + [GetContext(p.depth), PushProgram(program), PushProgram(inverse)];
      PathExpression(p, false, true);
      Opcode(InvokeAmbiguous(HeadName(p), program.Some? || inverse.Some?));
    }

    /** Visits a value: a path, a literal or a subexpression. */
    method Accept(e: Expr) returns (ok: bool)
      modifies `opcodes
      ensures ok <==> AcceptsExpr(e, options, blockParams)
      ensures ok ==> opcodes == old(opcodes) + EmitExpr(e, options, blockParams)
      decreases e, 1
    {
      hide EmitPath, ClassifySexpr, EmitParams, EmitHash, EmitInvoke, EmitAmbiguous;
      ok := true;
      match e
      case PathExpression(p) => PathExpression(p, false, false);
      case StringLiteral(t) => Opcode(PushString(t));
      case NumberLiteral(d, u) => Opcode(PushLiteral(Number(d, u)));
      case BooleanLiteral(b) => Opcode(PushLiteral(Bool(b)));
      case UndefinedLiteral => Opcode(PushLiteral(Undefined));
      case NullLiteral => Opcode(PushLiteral(Null));
      case SubExpression(p, params, hash) =>
        var kind := Classify(true, p, params, hash);
        if kind.Helper? {
          ok := HelperSexpr(e, p, params, hash, None, None);
        } else {
          // in parentheses nothing is ambiguous
          SimpleSexpr(p);
        }
    }

    method HelperSexpr(owner: Expr, p: Path, params: seq<Expr>, hash: Hash, program: Option<nat>, inverse: Option<nat>)
      returns (ok: bool)
      requires owner.SubExpression? && owner.params == params && owner.hash == hash
      modifies `opcodes
      ensures ok <==> AcceptsParams(params, options, blockParams) && AcceptsHash(hash, options, blockParams) &&
                      (Known(options, HeadName(p)) || !options.knownHelpersOnly)
      ensures ok ==>
              opcodes == old(opcodes) + (EmitArguments(params, program, inverse, hash, false, options, blockParams) +
                                                EmitInvoke(p, |params|, options, blockParams))
      decreases owner, 0, 1
    {
      hide EmitPath, EmitArguments, AcceptsParams, AcceptsHash;
      ok := SetupFullMustacheParams(owner, params, program, inverse, hash, false);
      if !ok {
        return;
      }
      if Known(options, HeadName(p)) {
        Opcode(InvokeKnownHelper(|params|, HeadName(p)));
      } else if options.knownHelpersOnly {
        ok := false;
      } else {
        PathExpression(p, true, true);
        Opcode(InvokeHelper(|params|, p.original, SimpleId(p)));
      }
    }

    method SetupFullMustacheParams(owner: Expr, params: seq<Expr>, program: Option<nat>, inverse: Option<nat>,
                                   hash: Hash, omitEmpty: bool)
      returns (ok: bool)
      requires owner.SubExpression? && owner.params == params && owner.hash == hash
      modifies `opcodes
      ensures ok <==> AcceptsParams(params, options, blockParams) && AcceptsHash(hash, options, blockParams)
      ensures ok ==> opcodes == old(opcodes) + EmitArguments(params, program, inverse, hash, omitEmpty, options,
                                                             blockParams)
      decreases owner, 0, 0
    {
      hide EmitParams, AcceptsParams, EmitValues, EmitKeys;
      ok := PushParams(params);
      if !ok {
        return;
      }
      Opcode(PushProgram(program));
      Opcode(PushProgram(inverse));
      if hash.Pairs? {
        ok := VisitHash(hash);
      } else {
        Opcode(EmptyHash(omitEmpty));
      }
    }

    method PushParam(e: Expr) returns (ok: bool)
      modifies `opcodes
      ensures ok <==> AcceptsExpr(e, options, blockParams)
      ensures ok ==> opcodes == old(opcodes) + EmitParam(e, options, blockParams)
      decreases e, 2
    {
      hide EmitExpr, IdOf, StringModeValue;
      ok := true;
      if options.stringParams {
        Opcode(GetContext(if e.PathExpression? then e.path.depth else 0));
        Opcode(PushStringParam(StringModeValue(e), TypeName(e)));
        if e.SubExpression? {
          ok := Accept(e);
        }
      } else {
        if options.trackIds {
          Opcode(PushId(IdOf(e, blockParams)));
        }
        ok := Accept(e);
      }
    }

    method PushParams(params: seq<Expr>) returns (ok: bool)
      modifies `opcodes
      ensures ok <==> AcceptsParams(params, options, blockParams)
      ensures ok ==> opcodes == old(opcodes) + EmitParams(params, options, blockParams)
      decreases params, 3
    {
      hide EmitParam, AcceptsExpr;
      for i := 0 to |params|
        invariant AcceptsParams(params, options, blockParams) == AcceptsParams(params[i..], options, blockParams)
        invariant opcodes + EmitParams(params[i..], options, blockParams) ==
                  old(opcodes) + EmitParams(params, options, blockParams)
      {
        assert params[i..][1..] == params[i + 1..];
        ghost var was := opcodes;
        ok := PushParam(params[i]);
        if !ok {
          return;
        }
        assert was + (EmitParam(params[i], options, blockParams) + EmitParams(params[i + 1..], options, blockParams)) ==
               opcodes + EmitParams(params[i + 1..], options, blockParams);
      }
      ok := true;
    }

    /** The values first to last, then the keys last to first. */
    method VisitHash(hash: Hash) returns (ok: bool)
      requires hash.Pairs?
      modifies `opcodes
      ensures ok <==> AcceptsHash(hash, options, blockParams)
      ensures ok ==> opcodes == old(opcodes) + EmitHash(hash, false, options, blockParams)
      decreases hash
    {
      hide EmitParam, AcceptsExpr;
      var pairs := hash.pairs;
      Opcode(PushHash);
      ghost var start := opcodes;
      for i := 0 to |pairs|
        invariant AcceptsPairs(pairs, options, blockParams) == AcceptsPairs(pairs[i..], options, blockParams)
        invariant opcodes + EmitValues(pairs[i..], options, blockParams) ==
                  start + EmitValues(pairs, options, blockParams)
      {
        assert pairs[i..][1..] == pairs[i + 1..];
        ghost var was := opcodes;
        ok := PushParam(pairs[i].value);
        if !ok {
          return;
        }
        assert was + (EmitParam(pairs[i].value, options, blockParams) +
                      EmitValues(pairs[i + 1..], options, blockParams)) ==
               opcodes + EmitValues(pairs[i + 1..], options, blockParams);
      }
      ghost var valued := opcodes;
      var i := |pairs|;
      while i > 0
        invariant 0 <= i <= |pairs|
        invariant opcodes == valued + EmitKeys(pairs[i..])
      {
        i := i - 1;
        assert pairs[i..][1..] == pairs[i + 1..];
        Opcode(AssignToHash(pairs[i].key));
      }
      Opcode(PopHash);
      assert pairs[0..] == pairs;
      ok := true;
    }

    // ---------- Statements ----------

    method SubExpressionOf(p: Path, params: seq<Expr>, hash: Hash) returns (ok: bool)
      modifies `opcodes
      ensures ok <==> AcceptsCall(false, p, params, hash, options, blockParams)
      ensures ok ==> opcodes == old(opcodes) + EmitMustache(p, params, hash, options, blockParams)
    {
      hide EmitPath, ClassifySexpr, EmitArguments, EmitInvoke, EmitAmbiguous;
      ok := true;
      var kind := Classify(false, p, params, hash);
      if kind.Simple? {
        SimpleSexpr(p);
      } else if kind.Helper? {
        ok := HelperSexpr(SubExpression(p, params, hash), p, params, hash, None, None);
      } else {
        AmbiguousSexpr(p, None, None);
      }
    }

    method Mustache(p: Path, params: seq<Expr>, hash: Hash, escaped: bool) returns (ok: bool)
      modifies `opcodes
      ensures var m := MustacheStatement(p, params, hash, escaped);
              (ok <==> AcceptsStatement(m, options, blockParams)) &&
              (ok ==> opcodes == old(opcodes) + EmitStatement(m, options, blockParams, 0).opcodes)
    {
      hide EmitMustache, AcceptsCall;
      ok := SubExpressionOf(p, params, hash);
      if !ok {
        return;
      }
      if escaped && !options.noEscape {
        Opcode(AppendEscaped);
      } else {
        Opcode(Append);
      }
    }

    method Block(p: Path, params: seq<Expr>, hash: Hash, program: Option<nat>, inverse: Option<nat>) returns (ok: bool)
      modifies `opcodes
      ensures ok <==> AcceptsCall(false, p, params, hash, options, blockParams)
      ensures ok ==> opcodes == old(opcodes) + EmitBlock(p, params, hash, program, inverse, options, blockParams)
    {
      hide EmitPath, ClassifySexpr, EmitArguments, EmitInvoke, EmitAmbiguous, EmitBlock, AcceptsParams, AcceptsHash;
      ok := true;
      ghost var was := opcodes;
      var kind := Classify(false, p, params, hash);
      if kind.Helper? {
        ok := HelperSexpr(SubExpression(p, params, hash), p, params, hash, program, inverse);
        if !ok {
          return;
        }
      } else {
        if kind.Simple? {
          SimpleSexpr(p);
        } else {
          AmbiguousSexpr(p, program, inverse);
        }
        BlockEnd(program, inverse, if kind.Simple? then BlockValue(p.original) else AmbiguousBlockValue);
      }
      Opcode(Append);
      BlockIs(was, p, params, hash, program, inverse, options, blockParams);
    }

    /** The programs again, and the opcode that turns the value into a block. */
    method BlockEnd(program: Option<nat>, inverse: Option<nat>, op: HandlebarsCompiler.Opcode)
      modifies `opcodes
      ensures opcodes == old(opcodes) + [PushProgram(program), PushProgram(inverse), EmptyHash(false), op]
    {
      Opcode(PushProgram(program));
      Opcode(PushProgram(inverse));
      Opcode(EmptyHash(false));
      Opcode(op);
    }

    method Partial(partial: PartialName, params: seq<Expr>, hash: Hash, program: Option<nat>, indent: string)
      returns (ok: bool)
      modifies `opcodes
      ensures ok <==> |params| <= 1 && (partial.Dynamic? ==> AcceptsExpr(partial.call, options, blockParams)) &&
                      AcceptsParams(params, options, blockParams) && AcceptsHash(hash, options, blockParams)
      ensures ok ==> opcodes == old(opcodes) + EmitPartial(partial, params, hash, program, indent, options, blockParams)
    {
      hide EmitExpr, EmitArguments, AcceptsHash, AcceptsExpr, AcceptsParams, EmitPartial;
      ghost var was := opcodes;
      ContextAccepted(params, options, blockParams);
      var ps := params;
      if |params| > 1 {
        return false;
      } else if params == [] {
        if options.explicitPartialContext {
          Opcode(PushLiteral(Undefined));
        } else {
          ps := [HandlebarsCompiler.PathExpression(Path(false, 0, [], ""))];
        }
      }
      ghost var a := if params == [] && options.explicitPartialContext then [PushLiteral(Undefined)] else [];
      assert opcodes == was + a;
      if partial.Dynamic? {
        ok := Accept(partial.call);
        if !ok {
          return;
        }
      }
      ghost var b := if partial.Dynamic? then EmitExpr(partial.call, options, blockParams) else [];
      assert opcodes == was + a + b;
      ok := SetupFullMustacheParams(SubExpression(Path(false, 0, [], ""), ps, hash), ps, program, None, hash, true);
      if !ok {
        return;
      }
      ghost var c := EmitArguments(ps, program, None, hash, true, options, blockParams);
      PartialEnd(partial, indent);
      PartialIs(partial, params, hash, program, indent, options, blockParams);
      Together(was, a, b, c, InvokeOf(partial, indent, options));
    }

    /** The indent, the call and the append. */
    method PartialEnd(partial: PartialName, indent: string)
      modifies `opcodes
      ensures opcodes == old(opcodes) + InvokeOf(partial, indent, options)
    {
      var inner := indent;
      if options.preventIndent && indent != "" {
        Opcode(AppendContent(indent));
        inner := "";
      }
      Opcode(InvokePartial(partial.Dynamic?, if partial.Named? then partial.name else "", inner));
      Opcode(Append);
    }

    /** Compiles a nested program with a compiler of its own and returns its number. */
    method CompileNested(p: Option<Program>) returns (ok: bool, id: Option<nat>)
      requires guid == |children|
      modifies this
      ensures opcodes == old(opcodes) && blockParams == old(blockParams) && guid == |children|
      ensures ok <==> AcceptsOptional(p, options, blockParams)
      ensures ok ==> children == old(children) + CompileOptional(p, options, blockParams) && id == Guid(p, old(guid))
      decreases p, 0
    {
      ok, id := true, None;
      if p.None? {
        return;
      }
      var child := new Compiler(options, blockParams);
      var result;
      ok, result := child.CompileBody(p.value);
      if ok {
        id := Some(guid);
        guid := guid + 1;
        children := children + [result];
      }
    }

    method Visit(m: Statement) returns (ok: bool)
      requires guid == |children|
      modifies this
      ensures blockParams == old(blockParams) && guid == |children|
      ensures ok <==> AcceptsStatement(m, options, blockParams)
      ensures ok ==> var e := EmitStatement(m, options, blockParams, old(guid));
                     opcodes == old(opcodes) + e.opcodes && children == old(children) + e.children
      decreases m
    {
      hide EmitMustache, EmitBlock, EmitPartial, EmitArguments, AcceptsCall, AcceptsParams, AcceptsHash, AcceptsExpr,
           CompileProgram,
           AcceptsProgram;
      ok := true;
      match m
      case MustacheStatement(p, params, hash, escaped) =>
        ok := Mustache(p, params, hash, escaped);
      case BlockStatement(p, params, hash, program, inverse) =>
        var g, h;
        ok, g := CompileNested(program);
        if !ok {
          return;
        }
        ok, h := CompileNested(inverse);
        if !ok {
          return;
        }
        ok := Block(p, params, hash, g, h);
      case PartialStatement(partial, params, hash, program, indent) =>
        var g;
        ok, g := CompileNested(program);
        if !ok {
          return;
        }
        ok := Partial(partial, params, hash, g, indent);
      case Decorator(p, params, hash, program) =>
        var g;
        ok, g := CompileNested(program);
        if !ok {
          return;
        }
        ok := SetupFullMustacheParams(SubExpression(p, params, hash), params, g, None, hash, false);
        if !ok {
          return;
        }
        Opcode(RegisterDecorator(|params|, p.original));
      case ContentStatement(content) =>
        if content != "" {
          Opcode(AppendContent(content));
        }
      case CommentStatement =>
    }

    method VisitBody(body: seq<Statement>) returns (ok: bool)
      requires guid == |children|
      modifies this
      ensures blockParams == old(blockParams)
      ensures ok <==> AcceptsBody(body, options, blockParams)
      ensures ok ==> Emission(opcodes, children) ==
                     Then(old(opcodes), old(children), EmitBody(body, options, blockParams, old(guid)))
      decreases body
    {
      hide EmitStatement, AcceptsStatement, AcceptsBody, EmitBody, Then;
      ThenAll(opcodes, children, body, options, blockParams, guid);
      for i := 0 to |body|
        invariant guid == |children| && blockParams == old(blockParams)
        invariant AcceptsBody(body, options, blockParams) == AcceptsBody(body[i..], options, blockParams)
        invariant Then(old(opcodes), old(children), EmitBody(body, options, blockParams, old(guid))) ==
                  Then(opcodes, children, EmitBody(body[i..], options, blockParams, guid))
      {
        ThenStep(opcodes, children, body, i, options, blockParams, guid);
        ok := Visit(body[i]);
        if !ok {
          return;
        }
      }
      ThenNone(opcodes, children, options, blockParams, guid);
      assert body[|body|..] == [];
      ok := true;
    }

    /** Compiles one program into a fresh compiler; the block parameters are in scope while its body is visited. */
    method CompileBody(p: Program) returns (ok: bool, env: Environment)
      requires opcodes == [] && children == [] && guid == 0
      modifies this
      ensures ok <==> AcceptsProgram(p, options, old(blockParams))
      ensures ok ==> env == CompileProgram(p, options, old(blockParams)) && blockParams == old(blockParams)
      decreases p
    {
      hide EmitBody, AcceptsBody;
      env := Environment([], [], false, 0);
      blockParams := [p.blockParams] + blockParams;
      ok := VisitBody(p.body);
      if !ok {
        return;
      }
      blockParams := blockParams[1..];
      env := Environment(opcodes, children, |p.body| == 1, if p.blockParams.Some? then |p.blockParams.value| else 0);
    }
  }

  /** The three forms of a block. */
  lemma BlockIs(was: seq<Opcode>, p: Path, params: seq<Expr>, hash: Hash, g: Option<nat>, h: Option<nat>, o: Options,
                bp: Scope)
    ensures was + EmitBlock(p, params, hash, g, h, o, bp) ==
            match ClassifySexpr(o, bp, p, HelperExpression(false, params, hash))
            case Helper => was + (EmitArguments(params, g, h, hash, false, o, bp) + EmitInvoke(p, |params|, o, bp)) +
              [Append]
            case Simple => was + (EmitPath(p, false, true, bp) + [ResolvePossibleLambda]) +
                           [PushProgram(g), PushProgram(h), EmptyHash(false), BlockValue(p.original)] + [Append]
            case Ambiguous => was + EmitAmbiguous(p, g, h, bp) +
                              [PushProgram(g), PushProgram(h), EmptyHash(false), AmbiguousBlockValue] + [Append]
  {
    hide EmitPath, ClassifySexpr, EmitArguments, EmitInvoke, EmitAmbiguous;
  }

  function InvokeOf(partial: PartialName, indent: string, o: Options): seq<Opcode> {
    (if o.preventIndent && indent != "" then [AppendContent(indent)] else []) +
    [InvokePartial(partial.Dynamic?, if partial.Named? then partial.name else "", if o.preventIndent then ""
                   else indent), Append]
  }

  lemma PartialIs(partial: PartialName, params: seq<Expr>, hash: Hash, program: Option<nat>, indent: string, o: Options,
                  bp: Scope)
    ensures EmitPartial(partial, params, hash, program, indent, o, bp) ==
            (if params == [] && o.explicitPartialContext then [PushLiteral(Undefined)] else []) +
            (if partial.Dynamic? then EmitExpr(partial.call, o, bp) else []) +
            EmitArguments(PartialParams(params, o), program, None, hash, true, o, bp) + InvokeOf(partial, indent, o)
  {
    hide EmitArguments, EmitExpr, PartialParams;
  }

  lemma Together<T>(was: seq<T>, a: seq<T>, b: seq<T>, c: seq<T>, d: seq<T>)
    ensures was + a + b + c + d == was + (a + b + c + d)
  {
  }

  lemma ThenStep(ops: seq<Opcode>, cs: seq<Environment>, body: seq<Statement>, i: nat, o: Options, bp: Scope, guid: nat)
    requires i < |body|
    ensures var first := EmitStatement(body[i], o, bp, guid);
            Then(ops, cs, EmitBody(body[i..], o, bp, guid)) ==
            Then(ops + first.opcodes, cs + first.children, EmitBody(body[i + 1..], o, bp, guid + |first.children|))
    ensures AcceptsBody(body[i..], o, bp) <==> AcceptsStatement(body[i], o, bp) && AcceptsBody(body[i + 1..], o, bp)
  {
    hide EmitStatement, AcceptsStatement;
    assert body[i..][1..] == body[i + 1..];
    var first := EmitStatement(body[i], o, bp, guid);
    var rest := EmitBody(body[i + 1..], o, bp, guid + |first.children|);
    assert ops + (first.opcodes + rest.opcodes) == ops + first.opcodes + rest.opcodes;
    assert cs + (first.children + rest.children) == cs + first.children + rest.children;
  }

  lemma ThenNone(ops: seq<Opcode>, cs: seq<Environment>, o: Options, bp: Scope, guid: nat)
    ensures Then(ops, cs, EmitBody([], o, bp, guid)) == Emission(ops, cs) && AcceptsBody([], o, bp)
  {
    assert ops + [] == ops && cs + [] == cs;
  }

  lemma ThenAll(ops: seq<Opcode>, cs: seq<Environment>, body: seq<Statement>, o: Options, bp: Scope, guid: nat)
    ensures EmitBody(body[0..], o, bp, guid) == EmitBody(body, o, bp, guid) &&
            AcceptsBody(body[0..], o, bp) == AcceptsBody(body, o, bp)
  {
    hide EmitBody, AcceptsBody;
    assert body[0..] == body;
  }

  ghost function Then(opcodes: seq<Opcode>, children: seq<Environment>, e: Emission): Emission {
    Emission(opcodes + e.opcodes, children + e.children)
  }

  ghost function Deeper(r: Option<(nat, nat)>, depth: nat): Option<(nat, nat)> {
    if r.None? then None else Some((r.value.0 + depth, r.value.1))
  }

  lemma ContextAccepted(params: seq<Expr>, o: Options, bp: Scope)
    ensures AcceptsParams(PartialParams(params, o), o, bp) <==> AcceptsParams(params, o, bp)
  {
  }
}
