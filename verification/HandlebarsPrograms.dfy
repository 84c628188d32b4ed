/** Nested programs share code: a program whose environment equals one compiled before
    gets that one's number. Environments are equal when their opcodes and children are,
    but the function of a program also depends on whether it has a single statement, so
    a program gets the form of the first of its equals. */
module HandlebarsPrograms {
  import opened Wrappers
  import opened HandlebarsCompiler
  import G = HandlebarsCodegen
  import opened HandlebarsCorrect
  import opened HandlebarsSemantics
  import opened HandlebarsOutput
  import opened HandlebarsMachine
  import opened HandlebarsMerge
  import opened HandlebarsTemplates
  import M = MergeSource

  // ---------- Equality of environments ----------

  /** `equals`: the opcodes, then as many children as this environment has. None is the error
      of a child the other one lacks. */
  function Equals(a: Environment, b: Environment): Option<bool>
    decreases a, 1
  {
    if a.opcodes != b.opcodes then Some(false) else ChildrenEqual(a.children, b.children)
  }

  function ChildrenEqual(a: seq<Environment>, b: seq<Environment>): Option<bool>
    decreases a
  {
    if a == [] then Some(true)
    else if b == [] then None
    else
      var first := Equals(a[0], b[0]);
      if first == Some(true) then ChildrenEqual(a[1..], b[1..]) else first
  }

  /** The same opcodes and the same children, as trees. */
  predicate Same(a: Environment, b: Environment)
    decreases a, 1
  {
    a.opcodes == b.opcodes && AllSame(a.children, b.children)
  }

  predicate AllSame(a: seq<Environment>, b: seq<Environment>)
    decreases a
  {
    |a| == |b| && (a == [] || (Same(a[0], b[0]) && AllSame(a[1..], b[1..])))
  }

  function Max(a: nat, b: nat): nat { if a > b then a else b }

  /** One more than the largest number of a program the opcodes push. */
  function Programs(ops: seq<Opcode>): nat {
    if ops == [] then 0 else
      Max(if ops[0].PushProgram? && ops[0].guid.Some? then ops[0].guid.value + 1 else 0, Programs(ops[1..]))
  }

  /** Every child is pushed by some opcode. */
  predicate WellFormed(env: Environment)
    decreases env, 1
  {
    |env.children| == Programs(env.opcodes) && AllWellFormed(env.children)
  }

  predicate AllWellFormed(envs: seq<Environment>)
    decreases envs
  {
    envs == [] || (WellFormed(envs[0]) && AllWellFormed(envs[1..]))
  }

  /** Equal opcode lists imply equal child counts, so the comparison never meets a missing child
      and is equality of the whole trees. */
  lemma {:induction false} EqualsIsSame(a: Environment, b: Environment)
    requires WellFormed(a) && WellFormed(b)
    ensures Equals(a, b) == Some(Same(a, b))
    ensures a.opcodes == b.opcodes ==> |a.children| == |b.children|
    decreases a, 1
  {
    if a.opcodes == b.opcodes {
      ChildrenEqualIsSame(a.children, b.children);
    }
  }

  lemma {:induction false} ChildrenEqualIsSame(a: seq<Environment>, b: seq<Environment>)
    requires |a| == |b| && AllWellFormed(a) && AllWellFormed(b)
    ensures ChildrenEqual(a, b) == Some(AllSame(a, b))
    decreases a
  {
    hide Equals, Same, WellFormed;
    if a != [] {
      EqualsIsSame(a[0], b[0]);
      ChildrenEqualIsSame(a[1..], b[1..]);
    }
  }

  // ---------- Compiled environments are well formed ----------

  lemma {:induction false} ProgramsAppend(a: seq<Opcode>, b: seq<Opcode>)
    ensures Programs(a + b) == Max(Programs(a), Programs(b))
  {
    if a == [] {
      assert a + b == b;
    } else {
      assert (a + b)[1..] == a[1..] + b;
      ProgramsAppend(a[1..], b);
    }
  }

  predicate Pushes(ops: seq<Opcode>) { exists i :: 0 <= i < |ops| && ops[i].PushProgram? && ops[i].guid.Some? }

  lemma {:induction false} NoPrograms(ops: seq<Opcode>)
    ensures Programs(ops) == 0 <==> !Pushes(ops)
  {
    if ops != [] {
      NoPrograms(ops[1..]);
      if Pushes(ops[1..]) {
        var i :| 0 <= i < |ops[1..]| && ops[1..][i].PushProgram? && ops[1..][i].guid.Some?;
        assert ops[i + 1].PushProgram? && ops[i + 1].guid.Some?;
      }
      if Pushes(ops) && !(ops[0].PushProgram? && ops[0].guid.Some?) {
        var i :| 0 <= i < |ops| && ops[i].PushProgram? && ops[i].guid.Some?;
        assert ops[1..][i - 1] == ops[i];
      }
    }
  }

  lemma PathPrograms(p: Path, falsy: bool, strict: bool, bp: Scope)
    ensures Programs(EmitPath(p, falsy, strict, bp)) == 0
  {
    NoPrograms(EmitPath(p, falsy, strict, bp));
  }

  lemma {:induction false} ExprPrograms(e: Expr, o: Options, bp: Scope)
    ensures Programs(EmitExpr(e, o, bp)) == 0
    decreases e, 1
  {
    hide EmitPath, ClassifySexpr, Pushes;
    match e
    case PathExpression(p) => PathPrograms(p, false, false, bp);
    case SubExpression(p, params, hash) =>
      var kind := ClassifySexpr(o, bp, p, true);
      if kind.Simple? {
        PathPrograms(p, false, true, bp);
        ProgramsAppend(EmitPath(p, false, true, bp), [ResolvePossibleLambda]);
        OnePrograms(ResolvePossibleLambda);
      } else if kind.Ambiguous? {
        AmbiguousPrograms(p, None, None, bp);
      } else {
        CallPrograms(e, p, params, hash, None, None, o, bp);
      }
    case StringLiteral(t) => OnePrograms(PushString(t));
    case NumberLiteral(d, u) => OnePrograms(PushLiteral(Number(d, u)));
    case BooleanLiteral(b) => OnePrograms(PushLiteral(Bool(b)));
    case UndefinedLiteral => OnePrograms(PushLiteral(Undefined));
    case NullLiteral => OnePrograms(PushLiteral(Null));
  }

  function Count(g: Option<nat>): nat { if g.Some? then g.value + 1 else 0 }

  lemma OnePrograms(op: Opcode)
    ensures Programs([op]) == if op.PushProgram? then Count(op.guid) else 0
  {
    assert [op][1..] == [];
  }

  lemma TwoPrograms(g: Option<nat>, h: Option<nat>)
    ensures Programs([PushProgram(g), PushProgram(h)]) == Max(Count(g), Count(h))
  {
    OnePrograms(PushProgram(g));
    OnePrograms(PushProgram(h));
    ProgramsAppend([PushProgram(g)], [PushProgram(h)]);
    assert [PushProgram(g)] + [PushProgram(h)] == [PushProgram(g), PushProgram(h)];
  }

  lemma AmbiguousPrograms(p: Path, g: Option<nat>, h: Option<nat>, bp: Scope)
    ensures Programs(EmitAmbiguous(p, g, h, bp)) == Max(Count(g), Count(h))
  {
    hide EmitPath, Programs;
    var head := [GetContext(p.depth), PushProgram(g), PushProgram(h)];
    var call := InvokeAmbiguous(HeadName(p), g.Some? || h.Some?);
    OnePrograms(GetContext(p.depth));
    TwoPrograms(g, h);
    ProgramsAppend([GetContext(p.depth)], [PushProgram(g), PushProgram(h)]);
    assert [GetContext(p.depth)] + [PushProgram(g), PushProgram(h)] == head;
    PathPrograms(p, false, true, bp);
    ProgramsAppend(head, EmitPath(p, false, true, bp));
    OnePrograms(call);
    ProgramsAppend(head + EmitPath(p, false, true, bp), [call]);
  }

  lemma {:induction false} ParamPrograms(e: Expr, o: Options, bp: Scope)
    ensures Programs(EmitParam(e, o, bp)) == 0
    decreases e, 2
  {
    hide EmitExpr, Pushes, IdOf, StringModeValue;
    ExprPrograms(e, o, bp);
    if o.stringParams {
      var context, value := GetContext(if e.PathExpression? then e.path.depth else 0),
        PushStringParam(StringModeValue(e), TypeName(e));
      OnePrograms(context);
      OnePrograms(value);
      ProgramsAppend([context], [value]);
      assert [context] + [value] == [context, value];
      ProgramsAppend([context, value], if e.SubExpression? then EmitExpr(e, o, bp) else []);
    } else if o.trackIds {
      OnePrograms(PushId(IdOf(e, bp)));
      ProgramsAppend([PushId(IdOf(e, bp))], EmitExpr(e, o, bp));
    } else {
      assert [] + EmitExpr(e, o, bp) == EmitExpr(e, o, bp);
    }
  }

  lemma {:induction false} ParamsPrograms(es: seq<Expr>, o: Options, bp: Scope)
    ensures Programs(EmitParams(es, o, bp)) == 0
    decreases es, 3
  {
    hide EmitParam;
    if es != [] {
      ParamPrograms(es[0], o, bp);
      ParamsPrograms(es[1..], o, bp);
      ProgramsAppend(EmitParam(es[0], o, bp), EmitParams(es[1..], o, bp));
    }
  }

  lemma {:induction false} ValuesPrograms(pairs: seq<Pair>, o: Options, bp: Scope)
    ensures Programs(EmitValues(pairs, o, bp)) == 0
    decreases pairs
  {
    hide EmitParam;
    if pairs != [] {
      ParamPrograms(pairs[0].value, o, bp);
      ValuesPrograms(pairs[1..], o, bp);
      ProgramsAppend(EmitParam(pairs[0].value, o, bp), EmitValues(pairs[1..], o, bp));
    }
  }

  lemma {:induction false} KeysPrograms(pairs: seq<Pair>)
    ensures Programs(EmitKeys(pairs)) == 0
  {
    if pairs != [] {
      KeysPrograms(pairs[1..]);
      OnePrograms(AssignToHash(pairs[0].key));
      ProgramsAppend(EmitKeys(pairs[1..]), [AssignToHash(pairs[0].key)]);
    }
  }

  lemma {:induction false} HashPrograms(hash: Hash, omitEmpty: bool, o: Options, bp: Scope)
    ensures Programs(EmitHash(hash, omitEmpty, o, bp)) == 0
    decreases hash
  {
    hide EmitValues, EmitKeys, Programs;
    OnePrograms(EmptyHash(omitEmpty));
    if hash.Pairs? {
      ValuesPrograms(hash.pairs, o, bp);
      KeysPrograms(hash.pairs);
      OnePrograms(PushHash);
      OnePrograms(PopHash);
      ProgramsAppend([PushHash], EmitValues(hash.pairs, o, bp));
      ProgramsAppend([PushHash] + EmitValues(hash.pairs, o, bp), EmitKeys(hash.pairs));
      ProgramsAppend([PushHash] + EmitValues(hash.pairs, o, bp) + EmitKeys(hash.pairs), [PopHash]);
    }
  }

  lemma {:induction false} ArgumentsPrograms(owner: Expr, params: seq<Expr>, hash: Hash, omitEmpty: bool,
                                             g: Option<nat>, h: Option<nat>,
                                             o: Options, bp: Scope)
    requires owner.SubExpression? && owner.params == params && owner.hash == hash
    ensures Programs(EmitParams(params, o, bp) + [PushProgram(g), PushProgram(h)] + EmitHash(hash, omitEmpty, o, bp)) ==
            Max(Count(g), Count(h))
    decreases owner, 0, 0
  {
    hide EmitParams, EmitHash, Programs;
    ParamsPrograms(params, o, bp);
    TwoPrograms(g, h);
    HashPrograms(hash, omitEmpty, o, bp);
    ProgramsAppend(EmitParams(params, o, bp), [PushProgram(g), PushProgram(h)]);
    ProgramsAppend(EmitParams(params, o, bp) + [PushProgram(g), PushProgram(h)], EmitHash(hash, omitEmpty, o, bp));
  }

  lemma InvokePrograms(p: Path, n: nat, o: Options, bp: Scope)
    ensures Programs(EmitInvoke(p, n, o, bp)) == 0
  {
    hide EmitPath, Programs;
    var op := InvokeHelper(n, p.original, SimpleId(p));
    OnePrograms(InvokeKnownHelper(n, HeadName(p)));
    OnePrograms(op);
    PathPrograms(p, true, true, bp);
    ProgramsAppend(EmitPath(p, true, true, bp), [op]);
  }

  lemma {:induction false} CallPrograms(owner: Expr, p: Path, params: seq<Expr>, hash: Hash, g: Option<nat>,
                                        h: Option<nat>, o: Options, bp: Scope)
    requires owner.SubExpression? && owner.params == params && owner.hash == hash
    ensures Programs(EmitParams(params, o, bp) + [PushProgram(g), PushProgram(h)] + EmitHash(hash, false, o, bp) +
                     EmitInvoke(p, |params|, o, bp)) == Max(Count(g), Count(h))
    decreases owner, 0, 1
  {
    hide EmitParams, EmitHash, EmitInvoke, Programs;
    ArgumentsPrograms(owner, params, hash, false, g, h, o, bp);
    InvokePrograms(p, |params|, o, bp);
    ProgramsAppend(EmitParams(params, o, bp) + [PushProgram(g), PushProgram(h)] + EmitHash(hash, false, o, bp),
                   EmitInvoke(p, |params|, o, bp));
  }

  lemma BlockPrograms(p: Path, params: seq<Expr>, hash: Hash, g: Option<nat>, h: Option<nat>, o: Options, bp: Scope)
    ensures Programs(EmitBlock(p, params, hash, g, h, o, bp)) == Max(Count(g), Count(h))
  {
    hide EmitPath, ClassifySexpr, EmitAmbiguous, EmitParams, EmitHash, EmitInvoke, Programs;
    OnePrograms(Append);
    OnePrograms(ResolvePossibleLambda);
    OnePrograms(EmptyHash(false));
    TwoPrograms(g, h);
    match ClassifySexpr(o, bp, p, HelperExpression(false, params, hash))
    case Helper =>
      CallPrograms(SubExpression(p, params, hash), p, params, hash, g, h, o, bp);
      ProgramsAppend(EmitArguments(params, g, h, hash, false, o, bp) + EmitInvoke(p, |params|, o, bp), [Append]);
    case Simple =>
      PathPrograms(p, false, true, bp);
      BlockEndPrograms(g, h, BlockValue(p.original));
      var rest := [PushProgram(g), PushProgram(h), EmptyHash(false), BlockValue(p.original)];
      ProgramsAppend([ResolvePossibleLambda], rest);
      assert [ResolvePossibleLambda] + rest ==
        [ResolvePossibleLambda, PushProgram(g), PushProgram(h), EmptyHash(false), BlockValue(p.original)];
      ProgramsAppend(EmitPath(p, false, true, bp), [ResolvePossibleLambda] + rest);
      ProgramsAppend(EmitPath(p, false, true, bp) + ([ResolvePossibleLambda] + rest), [Append]);
    case Ambiguous =>
      AmbiguousPrograms(p, g, h, bp);
      BlockEndPrograms(g, h, AmbiguousBlockValue);
      var rest := [PushProgram(g), PushProgram(h), EmptyHash(false), AmbiguousBlockValue];
      ProgramsAppend(EmitAmbiguous(p, g, h, bp), rest);
      ProgramsAppend(EmitAmbiguous(p, g, h, bp) + rest, [Append]);
  }

  lemma BlockEndPrograms(g: Option<nat>, h: Option<nat>, op: Opcode)
    requires !op.PushProgram?
    ensures Programs([PushProgram(g), PushProgram(h), EmptyHash(false), op]) == Max(Count(g), Count(h))
  {
    hide Programs;
    TwoPrograms(g, h);
    OnePrograms(EmptyHash(false));
    OnePrograms(op);
    ProgramsAppend([EmptyHash(false)], [op]);
    ProgramsAppend([PushProgram(g), PushProgram(h)], [EmptyHash(false)] + [op]);
    assert [PushProgram(g), PushProgram(h)] + ([EmptyHash(false)] + [op]) ==
           [PushProgram(g), PushProgram(h), EmptyHash(false), op];
  }

  lemma PartialPrograms(partial: PartialName, params: seq<Expr>, hash: Hash, g: Option<nat>, indent: string, o: Options,
                        bp: Scope)
    ensures Programs(EmitPartial(partial, params, hash, g, indent, o, bp)) == Count(g)
  {
    hide EmitExpr, EmitParams, EmitHash, Programs;
    var ps := PartialParams(params, o);
    var a := if params == [] && o.explicitPartialContext then [PushLiteral(Undefined)] else [];
    var b := if partial.Dynamic? then EmitExpr(partial.call, o, bp) else [];
    var c := EmitArguments(ps, g, None, hash, true, o, bp);
    var d := if o.preventIndent && indent != "" then [AppendContent(indent)] else [];
    var op := InvokePartial(partial.Dynamic?, if partial.Named? then partial.name else "", if o.preventIndent then ""
                            else indent);
    NonePrograms();
    OnePrograms(PushLiteral(Undefined));
    OnePrograms(AppendContent(indent));
    OnePrograms(op);
    OnePrograms(Append);
    if partial.Dynamic? {
      ExprPrograms(partial.call, o, bp);
    }
    ArgumentsPrograms(SubExpression(NOWHERE, ps, hash), ps, hash, true, g, None, o, bp);
    ProgramsAppend(a, b);
    ProgramsAppend(a + b, c);
    ProgramsAppend(a + b + c, d);
    ProgramsAppend([op], [Append]);
    assert [op] + [Append] == [op, Append];
    ProgramsAppend(a + b + c + d, [op, Append]);
  }

  lemma NonePrograms()
    ensures Programs([]) == 0
  {
  }

  /** A statement that starts numbering at guid pushes the numbers of exactly its own programs. */
  lemma StatementPrograms(m: Statement, o: Options, bp: Scope, guid: nat)
    ensures var e := EmitStatement(m, o, bp, guid);
            Programs(e.opcodes) == if e.children == [] then 0 else guid + |e.children|
  {
    hide EmitMustache, EmitBlock, EmitPartial, EmitParams, EmitHash, Programs, CompileProgram;
    NonePrograms();
    match m
    case MustacheStatement(p, params, hash, escaped) =>
      var op := if escaped && !o.noEscape then AppendEscaped else Append;
      MustachePrograms(p, params, hash, o, bp);
      OnePrograms(op);
      ProgramsAppend(EmitMustache(p, params, hash, o, bp), [op]);
    case BlockStatement(p, params, hash, program, inverse) =>
      BlockPrograms(p, params, hash, Guid(program, guid), Guid(inverse, guid + if program.Some? then 1 else 0), o, bp);
    case PartialStatement(partial, params, hash, program, indent) =>
      PartialPrograms(partial, params, hash, Guid(program, guid), indent, o, bp);
    case Decorator(p, params, hash, program) =>
      var op := RegisterDecorator(|params|, p.original);
      ArgumentsPrograms(SubExpression(p, params, hash), params, hash, false, Guid(program, guid), None, o, bp);
      OnePrograms(op);
      ProgramsAppend(EmitArguments(params, Guid(program, guid), None, hash, false, o, bp), [op]);
    case ContentStatement(content) =>
      OnePrograms(AppendContent(content));
    case CommentStatement =>
  }

  lemma MustachePrograms(p: Path, params: seq<Expr>, hash: Hash, o: Options, bp: Scope)
    ensures Programs(EmitMustache(p, params, hash, o, bp)) == 0
  {
    hide EmitPath, ClassifySexpr, EmitAmbiguous, EmitParams, EmitHash, EmitInvoke, Programs;
    match ClassifySexpr(o, bp, p, HelperExpression(false, params, hash))
    case Helper => CallPrograms(SubExpression(p, params, hash), p, params, hash, None, None, o, bp);
    case Simple =>
      PathPrograms(p, false, true, bp);
      OnePrograms(ResolvePossibleLambda);
      ProgramsAppend(EmitPath(p, false, true, bp), [ResolvePossibleLambda]);
    case Ambiguous => AmbiguousPrograms(p, None, None, bp);
  }

  lemma {:induction false} BodyPrograms(body: seq<Statement>, o: Options, bp: Scope, guid: nat)
    ensures var e := EmitBody(body, o, bp, guid);
            Programs(e.opcodes) == if e.children == [] then 0 else guid + |e.children|
    decreases |body|
  {
    hide EmitStatement, Programs;
    NonePrograms();
    if body != [] {
      var first := EmitStatement(body[0], o, bp, guid);
      StatementPrograms(body[0], o, bp, guid);
      BodyPrograms(body[1..], o, bp, guid + |first.children|);
      ProgramsAppend(first.opcodes, EmitBody(body[1..], o, bp, guid + |first.children|).opcodes);
    }
  }

  lemma {:induction false} WellFormedConcat(a: seq<Environment>, b: seq<Environment>)
    ensures AllWellFormed(a + b) <==> AllWellFormed(a) && AllWellFormed(b)
    decreases |a|
  {
    hide WellFormed;
    if a == [] {
      assert a + b == b;
    } else {
      assert (a + b)[1..] == a[1..] + b;
      WellFormedConcat(a[1..], b);
    }
  }

  /** Every environment the compiler makes has one child for each program its opcodes push. */
  lemma {:induction false} CompiledWellFormed(p: Program, o: Options, bp: Scope)
    ensures WellFormed(CompileProgram(p, o, bp))
    decreases p, 1
  {
    hide EmitBody, Programs, AllWellFormed;
    BodyPrograms(p.body, o, [p.blockParams] + bp, 0);
    BodyWellFormed(p.body, o, [p.blockParams] + bp, 0);
  }

  lemma {:induction false} BodyWellFormed(body: seq<Statement>, o: Options, bp: Scope, guid: nat)
    ensures AllWellFormed(EmitBody(body, o, bp, guid).children)
    decreases body
  {
    hide EmitStatement, WellFormed;
    if body != [] {
      var first := EmitStatement(body[0], o, bp, guid);
      StatementWellFormed(body[0], o, bp, guid);
      BodyWellFormed(body[1..], o, bp, guid + |first.children|);
      WellFormedConcat(first.children, EmitBody(body[1..], o, bp, guid + |first.children|).children);
    }
  }

  lemma {:induction false} StatementWellFormed(m: Statement, o: Options, bp: Scope, guid: nat)
    ensures AllWellFormed(EmitStatement(m, o, bp, guid).children)
    decreases m
  {
    hide EmitMustache, EmitBlock, EmitPartial, EmitArguments, WellFormed, CompileProgram;
    match m
    case BlockStatement(_, _, _, program, inverse) =>
      OptionalWellFormed(m, program, o, bp);
      OptionalWellFormed(m, inverse, o, bp);
      WellFormedConcat(CompileOptional(program, o, bp), CompileOptional(inverse, o, bp));
    case PartialStatement(_, _, _, program, _) => OptionalWellFormed(m, program, o, bp);
    case Decorator(_, _, _, program) => OptionalWellFormed(m, program, o, bp);
    case _ =>
  }

  lemma {:induction false} OptionalWellFormed(m: Statement, p: Option<Program>, o: Options, bp: Scope)
    requires (m.BlockStatement? && (p == m.program || p == m.inverse)) || (m.PartialStatement? && p == m.program) ||
             (m.Decorator? && p == m.program)
    ensures AllWellFormed(CompileOptional(p, o, bp))
    decreases m, 0
  {
    hide WellFormed, CompileProgram;
    if p.Some? {
      CompiledWellFormed(p.value, o, bp);
      var cs := CompileOptional(p, o, bp);
      assert cs[1..] == [] && cs[0] == CompileProgram(p.value, o, bp);
    }
  }

  // ---------- Sameness is an equivalence that keeps the size ----------

  function Size(env: Environment): nat
    decreases env, 1
  {
    1 + Sizes(env.children)
  }

  function Sizes(envs: seq<Environment>): nat
    decreases envs
  {
    if envs == [] then 0 else Size(envs[0]) + Sizes(envs[1..])
  }

  lemma {:induction false} SameSize(a: Environment, b: Environment)
    requires Same(a, b)
    ensures Size(a) == Size(b)
    decreases a, 1
  {
    AllSameSizes(a.children, b.children);
  }

  lemma {:induction false} AllSameSizes(a: seq<Environment>, b: seq<Environment>)
    requires AllSame(a, b)
    ensures Sizes(a) == Sizes(b)
    decreases a
  {
    if a != [] {
      SameSize(a[0], b[0]);
      AllSameSizes(a[1..], b[1..]);
    }
  }

  lemma {:induction false} ChildSize(envs: seq<Environment>, i: nat)
    requires i < |envs|
    ensures Size(envs[i]) <= Sizes(envs)
    decreases |envs|
  {
    hide Size;
    if i > 0 {
      ChildSize(envs[1..], i - 1);
    }
  }

  lemma {:induction false} SameRefl(a: Environment)
    ensures Same(a, a)
    decreases a, 1
  {
    AllSameRefl(a.children);
  }

  lemma {:induction false} AllSameRefl(a: seq<Environment>)
    ensures AllSame(a, a)
    decreases a
  {
    if a != [] {
      SameRefl(a[0]);
      AllSameRefl(a[1..]);
    }
  }

  lemma {:induction false} SameTrans(a: Environment, b: Environment, c: Environment)
    requires Same(a, b)
    ensures Same(a, c) <==> Same(b, c)
    decreases a, 1
  {
    AllSameTrans(a.children, b.children, c.children);
  }

  lemma {:induction false} AllSameTrans(a: seq<Environment>, b: seq<Environment>, c: seq<Environment>)
    requires AllSame(a, b)
    ensures AllSame(a, c) <==> AllSame(b, c)
    decreases a
  {
    if a != [] && c != [] {
      SameTrans(a[0], b[0], c[0]);
      AllSameTrans(a[1..], b[1..], c[1..]);
    }
  }

  lemma {:induction false} AllSameAt(a: seq<Environment>, b: seq<Environment>, i: nat)
    requires AllSame(a, b) && i < |a|
    ensures Same(a[i], b[i])
    decreases |a|
  {
    if i > 0 {
      AllSameAt(a[1..], b[1..], i - 1);
    }
  }

  lemma {:induction false} WellFormedAt(envs: seq<Environment>, i: nat)
    requires AllWellFormed(envs) && i < |envs|
    ensures WellFormed(envs[i])
    decreases |envs|
  {
    hide WellFormed;
    if i > 0 {
      WellFormedAt(envs[1..], i - 1);
    }
  }

  // ---------- The table of programs ----------

  /** A compiled program: its function, the text mergeSource makes of it, and the table numbers its program references
      stand for. */
  datatype Compiled = Compiled(fn: Function, text: M.Output<G.Line, G.Line>, indices: seq<nat>)

  /** `a[i] = v` on an array, which grows with holes. */
  function Put<T>(a: seq<Option<T>>, i: nat, v: T): (r: seq<Option<T>>)
    ensures |r| == Max(|a|, i + 1) && r[i] == Some(v)
    ensures forall j :: 0 <= j < |r| && j != i ==> r[j] == if j < |a| then a[j] else None
  {
    if i < |a| then a[i := Some(v)] else a + seq(i - |a|, _ => None) + [Some(v)]
  }

  predicate Holds(es: seq<Option<Environment>>, i: nat, env: Environment) {
    i < |es| && es[i].Some? && Same(es[i].value, env)
  }

  predicate Linked(es: seq<Option<Environment>>, indices: seq<nat>, children: seq<Environment>) {
    |indices| == |children| && forall g :: 0 <= g < |indices| ==> Holds(es, indices[g], children[g])
  }

  /** The environment's own function and its text. */
  predicate Generated(env: Environment, compiled: Compiled, o: Options) {
    && G.Run(G.INITIAL, env.opcodes, o).Some?
    && compiled.fn == FunctionOf(env, env.isSimple, o) && compiled.fn.statements != []
    && compiled.text == M.Text(compiled.fn.statements)
  }

  /** A filled slot holds the program of its environment, linked to slots of its children's. */
  predicate Slot(ps: seq<Option<Compiled>>, es: seq<Option<Environment>>, i: nat, o: Options)
    requires i < |es| && es[i].Some?
  {
    && i < |ps| && ps[i].Some? && WellFormed(es[i].value)
    && Generated(es[i].value, ps[i].value, o) && Linked(es, ps[i].value.indices, es[i].value.children)
  }

  /** The slots in `reserved` are being compiled; every other environment in the table is in place, once. */
  ghost predicate Table(ps: seq<Option<Compiled>>, es: seq<Option<Environment>>, reserved: set<nat>, o: Options) {
    && |es| <= |ps|
    && (forall r :: r in reserved ==> r <= |ps| && (r < |es| ==> es[r].None?))
    && (forall i :: 0 <= i < |es| && es[i].Some? ==> Slot(ps, es, i, o))
    && (forall i, j :: 0 <= i < |es| && 0 <= j < |es| && i != j && es[i].Some? && es[j].Some? ==>
        !Same(es[i].value, es[j].value))
  }

  ghost predicate Extends(ps: seq<Option<Compiled>>, es: seq<Option<Environment>>, ps1: seq<Option<Compiled>>,
                          es1: seq<Option<Environment>>) {
    |es| <= |es1| && |ps| <= |ps1| && forall i :: 0 <= i < |es| && es[i].Some? ==>
      es1[i] == es[i] && (i < |ps| ==> ps1[i] == ps[i])
  }

  /** What was added is smaller than the environment it was added for. */
  ghost predicate Smaller(es: seq<Option<Environment>>, es1: seq<Option<Environment>>, size: nat) {
    forall j :: 0 <= j < |es1| && es1[j].Some? && !(j < |es| && es[j].Some?) ==> Size(es1[j].value) < size
  }

  lemma LinkedExtends(ps: seq<Option<Compiled>>, es: seq<Option<Environment>>, ps1: seq<Option<Compiled>>,
                      es1: seq<Option<Environment>>,
                      indices: seq<nat>, children: seq<Environment>)
    requires Extends(ps, es, ps1, es1) && Linked(es, indices, children)
    ensures Linked(es1, indices, children)
  {
    hide Same;
    forall g | 0 <= g < |indices|
      ensures Holds(es1, indices[g], children[g])
    {
      assert Holds(es, indices[g], children[g]);
    }
  }

  /** Reserving pushes the placeholder; the number is past everything numbered so far. */
  lemma Reserve(ps: seq<Option<Compiled>>, es: seq<Option<Environment>>, reserved: set<nat>, o: Options)
    requires Table(ps, es, reserved, o)
    ensures var ps1 := ps + [None];
            Table(ps1, es, reserved + {|ps1|}, o) && |ps1| !in reserved && |ps1| > |es| && Extends(ps, es, ps1, es)
  {
    hide Same, WellFormed, Generated, Linked;
    var ps1 := ps + [None];
    forall i | 0 <= i < |es| && es[i].Some?
      ensures Slot(ps1, es, i, o)
    {
      assert Slot(ps, es, i, o);
    }
  }

  lemma PutExtends(ps: seq<Option<Compiled>>, es: seq<Option<Environment>>, index: nat, compiled: Compiled,
                   env: Environment)
    requires index < |es| ==> es[index].None?
    ensures Extends(ps, es, Put(ps, index, compiled), Put(es, index, env))
  {
  }

  /** Filling the reserved slot. */
  lemma Fill(ps: seq<Option<Compiled>>, es: seq<Option<Environment>>, reserved: set<nat>, index: nat,
             compiled: Compiled, env: Environment, o: Options)
    requires Table(ps, es, reserved + {index}, o) && index !in reserved && WellFormed(env)
    requires Generated(env, compiled, o) && Linked(es, compiled.indices, env.children)
    requires forall j :: 0 <= j < |es| && es[j].Some? ==> !Same(es[j].value, env)
    ensures Table(Put(ps, index, compiled), Put(es, index, env), reserved, o)
  {
    hide Same, WellFormed, Generated, Linked;
    var ps1, es1 := Put(ps, index, compiled), Put(es, index, env);
    assert index in reserved + {index};
    PutExtends(ps, es, index, compiled, env);
    forall i | 0 <= i < |es1| && es1[i].Some?
      ensures Slot(ps1, es1, i, o)
    {
      if i == index {
        LinkedExtends(ps, es, ps1, es1, compiled.indices, env.children);
      } else {
        assert Slot(ps, es, i, o);
        LinkedExtends(ps, es, ps1, es1, ps[i].value.indices, es[i].value.children);
      }
    }
    forall i, j | 0 <= i < |es1| && 0 <= j < |es1| && i != j && es1[i].Some? && es1[j].Some?
      ensures !Same(es1[i].value, es1[j].value)
    {
      if i == index {
        SameSymmetric(es1[i].value, es1[j].value);
      }
    }
  }

  lemma SameSymmetric(a: Environment, b: Environment)
    ensures Same(a, b) <==> Same(b, a)
  {
    SameRefl(a);
    SameRefl(b);
    if Same(a, b) {
      SameTrans(a, b, a);
    }
    if Same(b, a) {
      SameTrans(b, a, b);
    }
  }

  lemma NotSameAfter(ps: seq<Option<Compiled>>, es: seq<Option<Environment>>, ps1: seq<Option<Compiled>>,
                     es1: seq<Option<Environment>>, env: Environment)
    requires forall i :: 0 <= i < |es| && es[i].Some? ==> !Same(es[i].value, env)
    requires Extends(ps, es, ps1, es1) && Smaller(es, es1, Size(env))
    ensures forall j :: 0 <= j < |es1| && es1[j].Some? ==> !Same(es1[j].value, env)
  {
    hide Same, Size;
    forall j | 0 <= j < |es1| && es1[j].Some?
      ensures !Same(es1[j].value, env)
    {
      if Same(es1[j].value, env) {
        SameSize(es1[j].value, env);
      }
    }
  }

  // ---------- The first of equals ----------

  /** The first environment of a list that is the same as x, or x. */
  function FirstSame(envs: seq<Environment>, x: Environment): Environment
    decreases |envs|
  {
    if envs == [] then x else if Same(envs[0], x) then envs[0] else FirstSame(envs[1..], x)
  }

  /** The environments in the table are the first of their equals among those seen, and every one seen has its equal
      there. */
  ghost predicate Ordered(es: seq<Option<Environment>>, seen: seq<Environment>) {
    && (forall i :: 0 <= i < |es| && es[i].Some? ==> es[i].value in seen && FirstSame(seen, es[i].value) == es[i].value)
    && (forall x :: x in seen ==> exists i: nat :: Holds(es, i, x))
  }

  lemma {:induction false} FirstSameAppend(envs: seq<Environment>, more: seq<Environment>, x: Environment)
    ensures x in envs ==> FirstSame(envs + more, x) == FirstSame(envs, x)
    ensures (forall e :: e in envs ==> !Same(e, x)) ==> FirstSame(envs + more, x) == FirstSame(more, x)
    decreases |envs|
  {
    hide Same;
    if envs == [] {
      assert envs + more == more;
    } else {
      assert (envs + more)[1..] == envs[1..] + more;
      if !Same(envs[0], x) {
        SameRefl(x);
        FirstSameAppend(envs[1..], more, x);
      }
    }
  }

  /** Equal environments have the same first. */
  lemma {:induction false} FirstSameOfSame(envs: seq<Environment>, x: Environment, y: Environment)
    requires Same(x, y) && x in envs
    ensures FirstSame(envs, x) == FirstSame(envs, y)
    decreases |envs|
  {
    hide Same;
    SameSymmetric(x, y);
    SameSymmetric(envs[0], x);
    SameSymmetric(envs[0], y);
    SameTrans(x, y, envs[0]);
    if !Same(envs[0], x) {
      SameRefl(x);
      FirstSameOfSame(envs[1..], x, y);
    }
  }

  /** Seeing what the table already holds. */
  lemma OrderedSeen(es: seq<Option<Environment>>, seen: seq<Environment>, more: seq<Environment>)
    requires Ordered(es, seen) && forall x :: x in more ==> exists i: nat :: Holds(es, i, x)
    ensures Ordered(es, seen + more)
  {
    hide Holds, FirstSame;
    forall i | 0 <= i < |es| && es[i].Some?
      ensures es[i].value in seen + more && FirstSame(seen + more, es[i].value) == es[i].value
    {
      FirstSameAppend(seen, more, es[i].value);
    }
  }

  /** Filling the slot of an environment that nothing seen equals. */
  lemma OrderedFill(es: seq<Option<Environment>>, seen: seq<Environment>, index: nat, env: Environment)
    requires Ordered(es, seen) && (index < |es| ==> es[index].None?)
    requires forall j :: 0 <= j < |es| && es[j].Some? ==> !Same(es[j].value, env)
    ensures Ordered(Put(es, index, env), seen + [env])
  {
    hide Same, FirstSame;
    var es1, seen1 := Put(es, index, env), seen + [env];
    SameRefl(env);
    forall e | e in seen
      ensures !Same(e, env)
    {
      var i: nat :| Holds(es, i, e);
      SameTrans(es[i].value, e, env);
    }
    FirstSameAppend(seen, [env], env);
    FirstOfOne(env);
    forall i | 0 <= i < |es1| && es1[i].Some?
      ensures es1[i].value in seen1 && FirstSame(seen1, es1[i].value) == es1[i].value
    {
      if i != index {
        assert es[i] == es1[i];
        FirstSameAppend(seen, [env], es[i].value);
      }
    }
    HoldsFill(es, seen, index, env);
  }

  lemma HoldsFill(es: seq<Option<Environment>>, seen: seq<Environment>, index: nat, env: Environment)
    requires (index < |es| ==> es[index].None?) && forall x :: x in seen ==> exists i: nat :: Holds(es, i, x)
    ensures forall x :: x in seen + [env] ==> exists i: nat :: Holds(Put(es, index, env), i, x)
  {
    hide Same;
    SameRefl(env);
    var es1 := Put(es, index, env);
    forall x | x in seen + [env]
      ensures exists i: nat :: Holds(es1, i, x)
    {
      if x in seen {
        var i: nat :| Holds(es, i, x);
        assert Holds(es1, i, x);
      } else {
        assert Holds(es1, index, x);
      }
    }
  }

  lemma FirstOfOne(env: Environment)
    ensures FirstSame([env], env) == env
  {
  }

  /** Whatever is nested in an environment the table holds is held too. */
  lemma {:induction false} BelowHeld(ps: seq<Option<Compiled>>, es: seq<Option<Environment>>, reserved: set<nat>,
                                     i: nat, env: Environment, o: Options)
    requires Table(ps, es, reserved, o) && Holds(es, i, env)
    ensures forall x :: x in EnvsBelow(env) ==> exists j: nat :: Holds(es, j, x)
    decreases env, 1
  {
    hide WellFormed, Linked, Generated;
    assert Slot(ps, es, i, o);
    LinkedSame(es, ps[i].value.indices, es[i].value.children, env.children);
    AllBelowHeld(ps, es, reserved, ps[i].value.indices, env.children, o);
  }

  lemma {:induction false} AllBelowHeld(ps: seq<Option<Compiled>>, es: seq<Option<Environment>>, reserved: set<nat>,
                                        indices: seq<nat>,
                                        envs: seq<Environment>, o: Options)
    requires Table(ps, es, reserved, o) && Linked(es, indices, envs)
    ensures forall x :: x in EnvsIn(envs) ==> exists j: nat :: Holds(es, j, x)
    decreases envs
  {
    hide Table, Holds, EnvsBelow;
    if envs != [] {
      assert Holds(es, indices[0], envs[0]);
      BelowHeld(ps, es, reserved, indices[0], envs[0], o);
      LinkedTail(es, indices, envs);
      AllBelowHeld(ps, es, reserved, indices[1..], envs[1..], o);
    }
  }

  /** An environment after those nested in it, at the end of a list of children. */
  lemma EnvsInSnoc(envs: seq<Environment>, i: nat)
    requires i < |envs|
    ensures EnvsIn(envs[..i + 1]) == EnvsIn(envs[..i]) + EnvsBelow(envs[i]) + [envs[i]]
  {
    hide EnvsIn, EnvsBelow;
    EnvsInConcat(envs[..i], [envs[i]]);
    EnvsInOne(envs[i]);
    assert envs[..i + 1] == envs[..i] + [envs[i]];
  }

  class ProgramContext {
    const options: Options
    var programs: seq<Option<Compiled>>
    var environments: seq<Option<Environment>>
    /** Every environment met so far, compiled or not, each after those nested in it. */
    ghost var seen: seq<Environment>

    constructor (options: Options)
      ensures this.options == options && programs == [] && environments == [] && seen == []
      ensures Table(programs, environments, {}, options) && Ordered(environments, seen)
    {
      this.options := options;
      programs, environments, seen := [], [], [];
    }

    /** `equals`, with its two loops. */
    method Compare(a: Environment, b: Environment) returns (r: Option<bool>)
      ensures r == Equals(a, b)
      decreases a
    {
      if |a.opcodes| != |b.opcodes| {
        return Some(false);
      }
      for i := 0 to |a.opcodes|
        invariant a.opcodes[..i] == b.opcodes[..i]
      {
        if a.opcodes[i] != b.opcodes[i] {
          return Some(false);
        }
        assert a.opcodes[..i + 1] == a.opcodes[..i] + [a.opcodes[i]] &&
               b.opcodes[..i + 1] == b.opcodes[..i] + [b.opcodes[i]];
      }
      assert a.opcodes == a.opcodes[..|a.opcodes|] == b.opcodes[..|b.opcodes|] == b.opcodes;
      var xs, ys := a.children, b.children;
      for i := 0 to |xs|
        invariant i <= |ys| && ChildrenEqual(xs, ys) == ChildrenEqual(xs[i..], ys[i..])
      {
        assert xs[i..][1..] == xs[i + 1..];
        if i >= |ys| {
          return None;
        }
        assert ys[i..][1..] == ys[i + 1..];
        r := Compare(xs[i], ys[i]);
        if r != Some(true) {
          return;
        }
      }
      r := Some(true);
    }

    method MatchExistingProgram(child: Environment, ghost reserved: set<nat>) returns (r: Option<nat>)
      requires Table(programs, environments, reserved, options) && WellFormed(child)
      ensures r.Some? ==> Holds(environments, r.value, child)
      ensures r.None? ==> forall i :: 0 <= i < |environments| && environments[i].Some? ==>
              !Same(environments[i].value, child)
    {
      hide Same, WellFormed, Generated, Linked;
      for i := 0 to |environments|
        invariant forall j :: 0 <= j < i && environments[j].Some? ==> !Same(environments[j].value, child)
      {
        if environments[i].Some? {
          assert Slot(programs, environments, i, options);
          EqualsIsSame(environments[i].value, child);
          var same := Compare(environments[i].value, child);
          if same == Some(true) {
            return Some(i);
          }
        }
      }
      return None;
    }

    /** Numbers the children of an environment, compiling the ones not met before. */
    method CompileChildren(env: Environment, ghost reserved: set<nat>) returns (ok: bool, indices: seq<nat>)
      requires Table(programs, environments, reserved, options) && Ordered(environments, seen) && WellFormed(env)
      modifies this
      ensures ok ==> Table(programs, environments, reserved, options) && Linked(environments, indices, env.children)
      ensures ok ==> Ordered(environments, seen) && seen == old(seen) + EnvsBelow(env)
      ensures ok ==> Extends(old(programs), old(environments), programs, environments)
      ensures ok ==> Smaller(old(environments), environments, Size(env))
      ensures AllCompileCleanly(env.children, options) ==> ok
      decreases env, 0
    {
      hide Same, WellFormed, Generated, Linked, Slot, Put, Size, Equals, CompilesCleanly, Ordered, EnvsIn, Table,
           Extends, Smaller, Holds;
      WellFormedChildren(env);
      indices := [];
      LinkedNone(environments);
      ghost var start := seen;
      ChildrenStart(programs, environments, env);
      assert start + [] == start;
      for i := 0 to |env.children|
        invariant Table(programs, environments, reserved, options) && Ordered(environments, seen)
        invariant seen == start + EnvsIn(env.children[..i])
        invariant Linked(environments, indices, env.children[..i])
        invariant Extends(old(programs), old(environments), programs, environments)
        invariant Smaller(old(environments), environments, Size(env))
      {
        var child := env.children[i];
        ghost var ps, es := programs, environments;
        ChildOf(env, i);
        var index: nat;
        ok, index := Number(child, reserved);
        if !ok {
          return;
        }
        ExtendsTrans(old(programs), old(environments), ps, es, programs, environments);
        SmallerTrans(old(environments), ps, es, programs, environments, Size(child), Size(env));
        LinkedExtends(ps, es, programs, environments, indices, env.children[..i]);
        LinkedSnoc(environments, indices, env.children, i, index);
        EnvsInSnoc(env.children, i);
        assert start + EnvsIn(env.children[..i]) + EnvsBelow(child) + [child] ==
               start + (EnvsIn(env.children[..i]) + EnvsBelow(child) + [child]);
        indices := indices + [index];
      }
      assert env.children[..|env.children|] == env.children;
      ok := true;
    }

    /** The number of one child. */
    method Number(child: Environment, ghost reserved: set<nat>) returns (ok: bool, index: nat)
      requires Table(programs, environments, reserved, options) && Ordered(environments, seen) && WellFormed(child)
      modifies this
      ensures ok ==> Table(programs, environments, reserved, options) && Holds(environments, index, child)
      ensures ok ==> Ordered(environments, seen) && seen == old(seen) + EnvsBelow(child) + [child]
      ensures ok ==> Extends(old(programs), old(environments), programs, environments)
      ensures ok ==> Smaller(old(environments), environments, Size(child) + 1)
      ensures CompilesCleanly(child, options) ==> ok
      decreases child, 2
    {
      hide Same, WellFormed, Generated, Linked, Slot, Put, Size, Equals, CompilesCleanly, Ordered, EnvsBelow;
      var match0 := MatchExistingProgram(child, reserved);
      if match0.Some? {
        BelowHeld(programs, environments, reserved, match0.value, child, options);
        seen := seen + EnvsBelow(child) + [child];
        OrderedSeen(environments, old(seen), EnvsBelow(child) + [child]);
        assert old(seen) + (EnvsBelow(child) + [child]) == seen;
        return true, match0.value;
      }
      ghost var ps, es := programs, environments;
      Reserve(programs, environments, reserved, options);
      programs := programs + [None];
      index := |programs|;
      var compiled;
      ok, compiled := Compile(child, reserved + {index});
      if !ok {
        return;
      }
      ghost var ps1, es1 := programs, environments;
      NotSameAfter(ps, es, ps1, es1, child);
      Fill(programs, environments, reserved, index, compiled, child, options);
      OrderedFill(environments, seen, index, child);
      PutExtends(programs, environments, index, compiled, child);
      programs := Put(programs, index, compiled);
      environments := Put(environments, index, child);
      seen := seen + [child];
      ExtendsTrans(ps, es, ps1, es1, programs, environments);
      SmallerAfter(es, es, es1, environments, index, child, Size(child) + 1);
      SameRefl(child);
    }

    /** The children first, then the opcodes; the lines are merged in the form of the environment. */
    method Compile(env: Environment, ghost reserved: set<nat>) returns (ok: bool, compiled: Compiled)
      requires Table(programs, environments, reserved, options) && Ordered(environments, seen) && WellFormed(env)
      modifies this
      ensures ok ==> Table(programs, environments, reserved, options)
      ensures ok ==> Generated(env, compiled, options) && Linked(environments, compiled.indices, env.children)
      ensures ok ==> Ordered(environments, seen) && seen == old(seen) + EnvsBelow(env)
      ensures ok ==> Extends(old(programs), old(environments), programs, environments)
      ensures ok ==> Smaller(old(environments), environments, Size(env))
      ensures CompilesCleanly(env, options) ==> ok
      decreases env, 1
    {
      hide Same, WellFormed, Linked, Slot, Size, AllCompileCleanly, G.Run, Ordered, Table, Extends, Smaller, M.Text;
      compiled := Compiled(Build([], false), M.Output(M.NoBuffer, [], M.Nothing), []);
      if CompilesCleanly(env, options) {
        ChildrenCompile(env, options);
      }
      var indices;
      ok, indices := CompileChildren(env, reserved);
      if !ok {
        return;
      }
      var generator := new JavaScriptCompiler(options);
      ok := generator.Compile(env.opcodes);
      if !ok {
        return;
      }
      var lines := if env.isSimple then Returns(generator.lines) else Sources(generator.lines);
      var merger := new M.Merger(lines);
      var text := merger.MergeSource(lines, env.isSimple);
      compiled := Compiled(Build(generator.lines, env.isSimple), text, indices);
    }
  }

  lemma ChildrenStart(ps: seq<Option<Compiled>>, es: seq<Option<Environment>>, env: Environment)
    ensures Extends(ps, es, ps, es) && Smaller(es, es, Size(env)) && EnvsIn(env.children[..0]) == []
  {
    hide Size;
  }

  lemma ExtendsTrans(ps: seq<Option<Compiled>>, es: seq<Option<Environment>>, ps1: seq<Option<Compiled>>,
                     es1: seq<Option<Environment>>,
                     ps2: seq<Option<Compiled>>, es2: seq<Option<Environment>>)
    requires Extends(ps, es, ps1, es1) && Extends(ps1, es1, ps2, es2)
    ensures Extends(ps, es, ps2, es2)
  {
  }

  lemma SmallerTrans(es: seq<Option<Environment>>, ps1: seq<Option<Compiled>>, es1: seq<Option<Environment>>,
                     ps2: seq<Option<Compiled>>, es2: seq<Option<Environment>>, small: nat, size: nat)
    requires Smaller(es, es1, size) && Extends(ps1, es1, ps2, es2) && Smaller(es1, es2, small + 1) && small < size
    ensures Smaller(es, es2, size)
  {
    hide Size;
  }

  lemma WellFormedChildren(env: Environment)
    requires WellFormed(env)
    ensures forall i :: 0 <= i < |env.children| ==> WellFormed(env.children[i])
  {
    forall i | 0 <= i < |env.children|
      ensures WellFormed(env.children[i])
    {
      WellFormedAt(env.children, i);
    }
  }

  lemma ChildOf(env: Environment, i: nat)
    requires i < |env.children|
    ensures Size(env.children[i]) < Size(env)
  {
    ChildSize(env.children, i);
  }

  lemma LinkedNone(es: seq<Option<Environment>>)
    ensures Linked(es, [], [])
  {
  }

  lemma LinkedSnoc(es: seq<Option<Environment>>, indices: seq<nat>, children: seq<Environment>, i: nat, index: nat)
    requires i < |children| && Linked(es, indices, children[..i]) && Holds(es, index, children[i])
    ensures Linked(es, indices + [index], children[..i + 1])
  {
    hide Holds;
    forall g | 0 <= g < |indices + [index]|
      ensures Holds(es, (indices + [index])[g], children[..i + 1][g])
    {
      if g < i {
        assert Holds(es, indices[g], children[..i][g]);
      }
    }
  }

  lemma SmallerAfter(es0: seq<Option<Environment>>, es: seq<Option<Environment>>, es1: seq<Option<Environment>>,
                     es2: seq<Option<Environment>>,
                     index: nat, child: Environment, size: nat)
    requires Smaller(es0, es, size) && Smaller(es, es1, Size(child)) && Size(child) < size &&
             es2 == Put(es1, index, child)
    requires |es| <= |es1| && forall j :: 0 <= j < |es| && es[j].Some? ==> es1[j] == es[j]
    ensures Smaller(es0, es2, size)
  {
    hide Size, Put;
    forall j | 0 <= j < |es2| && es2[j].Some? && !(j < |es0| && es0[j].Some?)
      ensures Size(es2[j].value) < size
    {
      if j != index {
        assert es2[j] == es1[j];
        if j < |es| && es[j].Some? {
          assert es1[j] == es[j];
        }
      }
    }
  }

  // ---------- Links ----------

  lemma LinkedTail(es: seq<Option<Environment>>, indices: seq<nat>, envs: seq<Environment>)
    requires Linked(es, indices, envs) && envs != []
    ensures Linked(es, indices[1..], envs[1..])
  {
    hide Holds;
    forall g | 0 <= g < |indices| - 1
      ensures Holds(es, indices[1..][g], envs[1..][g])
    {
      assert Holds(es, indices[g + 1], envs[g + 1]);
    }
  }

  lemma LinkedSame(es: seq<Option<Environment>>, indices: seq<nat>, a: seq<Environment>, b: seq<Environment>)
    requires Linked(es, indices, a) && AllSame(a, b)
    ensures Linked(es, indices, b)
  {
    hide Same, AllSame;
    AllSameLength(a, b);
    forall g | 0 <= g < |indices|
      ensures Holds(es, indices[g], b[g])
    {
      assert Holds(es, indices[g], a[g]);
      AllSameAt(a, b, g);
      SameTrans(es[indices[g]].value, a[g], b[g]);
      SameSymmetric(a[g], b[g]);
      SameRefl(b[g]);
    }
  }

  lemma AllSameLength(a: seq<Environment>, b: seq<Environment>)
    requires AllSame(a, b)
    ensures |a| == |b|
  {
  }

  /** Two numbers of the table are equal exactly when their environments are. */
  lemma NumbersDecideSameness(ps: seq<Option<Compiled>>, es: seq<Option<Environment>>, i: nat, a: Environment, j: nat,
                              b: Environment, o: Options)
    requires Table(ps, es, {}, o) && Holds(es, i, a) && Holds(es, j, b)
    ensures i == j <==> Same(a, b)
  {
    hide Same, Slot;
    var x, y := es[i].value, es[j].value;
    SameTrans(x, a, b);
    if i != j && Same(a, b) {
      SameSymmetric(y, b);
      SameTrans(x, b, y);
    }
  }
}
