/** Whole templates: the programs nested in a program, however deep, in the order in
    which they are compiled, and exactly when all of them compile. */
module HandlebarsTemplates {
  import opened Wrappers
  import opened HandlebarsCompiler
  import opened HandlebarsCodegen
  import opened HandlebarsCorrect
  import opened HandlebarsOutput
  import opened HandlebarsHeights
  import opened HandlebarsBalance

  // ---------- Nested programs ----------

  /** A program and the block parameters in scope around it. */
  datatype Scoped = Scoped(program: Program, scope: Scope)

  /** The programs nested in p, each after the programs nested in it. */
  function Below(p: Program, bp: Scope): seq<Scoped>
    decreases p, 1
  {
    BelowBody(p.body, [p.blockParams] + bp)
  }

  function BelowBody(body: seq<Statement>, bp: Scope): seq<Scoped>
    decreases body
  {
    if body == [] then [] else BelowStatement(body[0], bp) + BelowBody(body[1..], bp)
  }

  function BelowStatement(m: Statement, bp: Scope): seq<Scoped>
    decreases m
  {
    match m
    case BlockStatement(_, _, _, program, inverse) =>
      (if program.Some? then Below(program.value, bp) + [Scoped(program.value, bp)] else []) +
      (if inverse.Some? then Below(inverse.value, bp) + [Scoped(inverse.value, bp)] else [])
    case PartialStatement(_, _, _, program, _) =>
      if program.Some? then Below(program.value, bp) + [Scoped(program.value, bp)] else []
    case Decorator(_, _, _, program) =>
      if program.Some? then Below(program.value, bp) + [Scoped(program.value, bp)] else []
    case _ => []
  }

  /** The program itself comes last. */
  function Every(p: Program, bp: Scope): seq<Scoped> { Below(p, bp) + [Scoped(p, bp)] }

  /** The environments nested in an environment, likewise. */
  function EnvsBelow(env: Environment): seq<Environment>
    decreases env, 1
  {
    EnvsIn(env.children)
  }

  function EnvsIn(envs: seq<Environment>): seq<Environment>
    decreases envs
  {
    if envs == [] then [] else EnvsBelow(envs[0]) + [envs[0]] + EnvsIn(envs[1..])
  }

  lemma {:induction false} EnvsInConcat(a: seq<Environment>, b: seq<Environment>)
    ensures EnvsIn(a + b) == EnvsIn(a) + EnvsIn(b)
    decreases |a|
  {
    hide EnvsBelow;
    if a == [] {
      assert a + b == b;
    } else {
      assert (a + b)[1..] == a[1..] + b;
      EnvsInConcat(a[1..], b);
    }
  }

  lemma EnvsInOne(env: Environment)
    ensures EnvsIn([env]) == EnvsBelow(env) + [env]
  {
    hide EnvsBelow;
    assert [env][1..] == [];
  }

  function CompileScoped(q: Scoped, o: Options): Environment { CompileProgram(q.program, o, q.scope) }

  function CompileEach(qs: seq<Scoped>, o: Options): (r: seq<Environment>)
    ensures |r| == |qs| && forall k :: 0 <= k < |qs| ==> r[k] == CompileScoped(qs[k], o)
  {
    if qs == [] then [] else [CompileScoped(qs[0], o)] + CompileEach(qs[1..], o)
  }

  lemma CompileEachConcat(a: seq<Scoped>, b: seq<Scoped>, o: Options)
    ensures CompileEach(a + b, o) == CompileEach(a, o) + CompileEach(b, o)
  {
    hide CompileScoped;
  }

  /** The environments nested in a compiled program are its nested programs, compiled. */
  lemma {:induction false} BelowCompiles(p: Program, o: Options, bp: Scope)
    ensures EnvsBelow(CompileProgram(p, o, bp)) == CompileEach(Below(p, bp), o)
    decreases p, 1
  {
    hide EmitBody, BelowBody;
    BodyBelow(p.body, o, [p.blockParams] + bp, 0);
  }

  lemma {:induction false} BodyBelow(body: seq<Statement>, o: Options, bp: Scope, guid: nat)
    ensures EnvsIn(EmitBody(body, o, bp, guid).children) == CompileEach(BelowBody(body, bp), o)
    decreases body
  {
    hide EmitStatement, BelowStatement;
    if body != [] {
      var first := EmitStatement(body[0], o, bp, guid);
      var rest := EmitBody(body[1..], o, bp, guid + |first.children|);
      StatementBelow(body[0], o, bp, guid);
      BodyBelow(body[1..], o, bp, guid + |first.children|);
      EnvsInConcat(first.children, rest.children);
      CompileEachConcat(BelowStatement(body[0], bp), BelowBody(body[1..], bp), o);
    }
  }

  lemma {:induction false} StatementBelow(m: Statement, o: Options, bp: Scope, guid: nat)
    ensures EnvsIn(EmitStatement(m, o, bp, guid).children) == CompileEach(BelowStatement(m, bp), o)
    decreases m
  {
    hide EmitMustache, EmitBlock, EmitPartial, EmitArguments, CompileProgram, Below, EnvsIn, CompileEach;
    NoneBelow(o);
    match m
    case BlockStatement(_, _, _, program, inverse) =>
      if program.Some? {
        BelowCompiles(program.value, o, bp);
        OneBelow(program.value, o, bp);
      }
      if inverse.Some? {
        BelowCompiles(inverse.value, o, bp);
        OneBelow(inverse.value, o, bp);
      }
      EnvsInConcat(CompileOptional(program, o, bp), CompileOptional(inverse, o, bp));
      CompileEachConcat(if program.Some? then Below(program.value, bp) + [Scoped(program.value, bp)] else [],
                        if inverse.Some? then Below(inverse.value, bp) + [Scoped(inverse.value, bp)] else [], o);
    case PartialStatement(_, _, _, program, _) =>
      if program.Some? {
        BelowCompiles(program.value, o, bp);
        OneBelow(program.value, o, bp);
      }
    case Decorator(_, _, _, program) =>
      if program.Some? {
        BelowCompiles(program.value, o, bp);
        OneBelow(program.value, o, bp);
      }
    case _ =>
  }

  lemma NoneBelow(o: Options)
    ensures EnvsIn([]) == [] && CompileEach([], o) == []
  {
  }

  lemma OneBelow(p: Program, o: Options, bp: Scope)
    requires EnvsBelow(CompileProgram(p, o, bp)) == CompileEach(Below(p, bp), o)
    ensures EnvsIn([CompileProgram(p, o, bp)]) == CompileEach(Below(p, bp) + [Scoped(p, bp)], o)
  {
    hide CompileProgram, Below, EnvsBelow;
    EnvsInOne(CompileProgram(p, o, bp));
    CompileEachConcat(Below(p, bp), [Scoped(p, bp)], o);
  }

  lemma {:induction false} ChildBelow(envs: seq<Environment>, i: nat)
    requires i < |envs|
    ensures envs[i] in EnvsIn(envs) && forall e :: e in EnvsBelow(envs[i]) ==> e in EnvsIn(envs)
    decreases |envs|
  {
    hide EnvsBelow;
    if i > 0 {
      ChildBelow(envs[1..], i - 1);
    }
  }

  // ---------- When templates compile ----------

  /** The opcodes run from empty stacks and leave them empty. */
  predicate Compiles(env: Environment, o: Options) {
    var t := Run(INITIAL, env.opcodes, o);
    t.Some? && Clean(t.value)
  }

  /** The environment and every environment in it compile: no pop ever finds both stacks empty and
      "content left on stack" is never thrown. */
  predicate CompilesCleanly(env: Environment, o: Options) {
    Compiles(env, o) && forall e :: e in EnvsBelow(env) ==> Compiles(e, o)
  }

  predicate AllCompileCleanly(envs: seq<Environment>, o: Options) {
    forall i :: 0 <= i < |envs| ==> CompilesCleanly(envs[i], o)
  }

  lemma ChildrenCompile(env: Environment, o: Options)
    requires CompilesCleanly(env, o)
    ensures AllCompileCleanly(env.children, o)
  {
    hide Compiles, EnvsIn;
    forall i | 0 <= i < |env.children|
      ensures CompilesCleanly(env.children[i], o)
    {
      ChildBelow(env.children, i);
    }
  }

  predicate BodyHeld(body: seq<Statement>) { forall i :: 0 <= i < |body| ==> KeysHeld(body[i]) }

  /** Nothing that an opcode pops has been left out. */
  predicate LosesNothing(body: seq<Statement>, o: Options, bp: Scope) {
    forall i :: 0 <= i < |body| ==> StatementLost(body[i], o, bp) == 0
  }

  lemma LosesCons(m: Statement, body: seq<Statement>, o: Options, bp: Scope)
    ensures LosesNothing([m] + body, o, bp) <==> StatementLost(m, o, bp) == 0 && LosesNothing(body, o, bp)
  {
    hide StatementLost;
    var all := [m] + body;
    if LosesNothing(all, o, bp) {
      assert all[0] == m;
      forall i | 0 <= i < |body|
        ensures StatementLost(body[i], o, bp) == 0
      {
        assert all[i + 1] == body[i];
      }
    }
  }

  lemma {:induction false} BodyCompilesIff(s: State, body: seq<Statement>, o: Options, bp: Scope, guid: nat)
    requires Clean(s) && BodyHeld(body)
    ensures var t := Run(s, EmitBody(body, o, bp, guid).opcodes, o);
            (t.Some? <==> LosesNothing(body, o, bp)) && (t.Some? ==> Clean(t.value))
    decreases |body|
  {
    hide Run, EmitStatement, KeysHeld, StatementLost;
    if body == [] {
      RunNothing(s, o);
    } else {
      var first := EmitStatement(body[0], o, bp, guid);
      var rest := EmitBody(body[1..], o, bp, guid + |first.children|);
      assert body == [body[0]] + body[1..];
      hide LosesNothing, Clean;
      LosesCons(body[0], body[1..], o, bp);
      StatementCompilesIff(s, body[0], o, bp, guid);
      RunAppend(s, first.opcodes, rest.opcodes, o);
      if Run(s, first.opcodes, o).Some? {
        BodyCompilesIff(Run(s, first.opcodes, o).value, body[1..], o, bp, guid + |first.children|);
      }
    }
  }

  lemma ProgramCompilesIff(q: Scoped, o: Options)
    requires BodyHeld(q.program.body)
    ensures Compiles(CompileScoped(q, o), o) <==> LosesNothing(q.program.body, o, [q.program.blockParams] + q.scope)
  {
    hide Run, EmitBody, BodyHeld, LosesNothing;
    BodyCompilesIff(INITIAL, q.program.body, o, [q.program.blockParams] + q.scope, 0);
  }

  /** A template compiles, with every program nested in it however deep, exactly when no statement of any of them
      loses an entry that is popped. */
  lemma EveryProgramCompilesIff(p: Program, o: Options, bp: Scope)
    requires forall q :: q in Every(p, bp) ==> BodyHeld(q.program.body)
    ensures CompilesCleanly(CompileProgram(p, o, bp), o) <==>
            forall q :: q in Every(p, bp) ==> LosesNothing(q.program.body, o, [q.program.blockParams] + q.scope)
  {
    hide Compiles, CompileProgram, BodyHeld, LosesNothing, EnvsBelow, Below;
    BelowCompiles(p, o, bp);
    forall q | q in Every(p, bp)
      ensures Compiles(CompileScoped(q, o), o) <==> LosesNothing(q.program.body, o, [q.program.blockParams] + q.scope)
    {
      ProgramCompilesIff(q, o);
    }
    var qs, envs := Below(p, bp), CompileEach(Below(p, bp), o);
    assert CompileScoped(Scoped(p, bp), o) == CompileProgram(p, o, bp) && Scoped(p, bp) in Every(p, bp);
    assert forall q :: q in Every(p, bp) <==> q in qs || q == Scoped(p, bp);
    forall q | q in qs
      ensures CompileScoped(q, o) in envs
    {
      var k :| 0 <= k < |qs| && qs[k] == q;
      assert envs[k] == CompileScoped(q, o);
    }
    forall e | e in envs
      ensures exists q :: q in qs && e == CompileScoped(q, o)
    {
      var k :| 0 <= k < |envs| && envs[k] == e;
      assert qs[k] in qs;
    }
  }

  /** Every program of the template fits. */
  predicate FitsTemplate(p: Program, o: Options, bp: Scope) {
    forall q :: q in Every(p, bp) ==> FitsBody(q.program.body, o, [q.program.blockParams] + q.scope)
  }

  lemma FitsLosesNothing(body: seq<Statement>, o: Options, bp: Scope)
    requires OneMode(o) && FitsBody(body, o, bp)
    ensures BodyHeld(body) && LosesNothing(body, o, bp)
  {
    hide PlainExpr, PlainExprs, PlainHash, FitsBlock, StatementArguments;
    forall i | 0 <= i < |body|
      ensures KeysHeld(body[i]) && StatementLost(body[i], o, bp) == 0
    {
      assert Fits(body[i], o, bp);
    }
  }

  /** What fits compiles. */
  lemma FittingCompiles(p: Program, o: Options, bp: Scope)
    requires OneMode(o) && FitsTemplate(p, o, bp)
    ensures CompilesCleanly(CompileProgram(p, o, bp), o)
  {
    hide CompilesCleanly, CompileProgram, BodyHeld, LosesNothing, FitsBody, Every;
    forall q | q in Every(p, bp)
      ensures BodyHeld(q.program.body) && LosesNothing(q.program.body, o, [q.program.blockParams] + q.scope)
    {
      FitsLosesNothing(q.program.body, o, [q.program.blockParams] + q.scope);
    }
    EveryProgramCompilesIff(p, o, bp);
  }
}
