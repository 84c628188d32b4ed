/** What sharing does to a template: every nested program gets the function of the first
    of its equals, which is its own except for the form, and what that changes exactly. */
module HandlebarsSharing {
  import opened Wrappers
  import opened HandlebarsCompiler
  import G = HandlebarsCodegen
  import opened HandlebarsSemantics
  import opened HandlebarsCorrect
  import opened HandlebarsOutput
  import opened HandlebarsMerge
  import opened HandlebarsTemplates
  import opened HandlebarsPrograms

  // ---------- Paths into a template ----------

  /** The program reached along the numbers of nested programs. */
  function ProgramAt(q: Scoped, path: seq<nat>): Option<Scoped>
    decreases |path|
  {
    if path == [] then Some(q)
    else if path[0] >= |NestedIn(q.program.body)| then None
    else ProgramAt(Scoped(NestedIn(q.program.body)[path[0]], [q.program.blockParams] + q.scope), path[1..])
  }

  /** What the table holds there. */
  function At(ps: seq<Option<Compiled>>, c: Compiled, path: seq<nat>): Option<Compiled>
    decreases |path|
  {
    if path == [] then Some(c)
    else if path[0] >= |c.indices| || c.indices[path[0]] >= |ps| then None
    else if ps[c.indices[path[0]]].None? then None
    else At(ps, ps[c.indices[path[0]]].value, path[1..])
  }

  function EveryIn(programs: seq<Program>, bp: Scope): seq<Scoped> {
    if programs == [] then [] else Every(programs[0], bp) + EveryIn(programs[1..], bp)
  }

  lemma {:induction false} EveryInConcat(a: seq<Program>, b: seq<Program>, bp: Scope)
    ensures EveryIn(a + b, bp) == EveryIn(a, bp) + EveryIn(b, bp)
  {
    hide Every;
    if a == [] {
      assert a + b == b;
    } else {
      assert (a + b)[1..] == a[1..] + b;
      EveryInConcat(a[1..], b, bp);
    }
  }

  lemma OptionalIn(p: Option<Program>, bp: Scope)
    ensures EveryIn(OptionalProgram(p), bp) == if p.Some? then Below(p.value, bp) + [Scoped(p.value, bp)] else []
  {
    hide Below;
    if p.Some? {
      assert [p.value][1..] == [];
    }
  }

  lemma StatementIn(m: Statement, bp: Scope)
    ensures BelowStatement(m, bp) == EveryIn(Nested(m), bp)
  {
    hide Below, EveryIn;
    match m
    case BlockStatement(_, _, _, program, inverse) =>
      EveryInConcat(OptionalProgram(program), OptionalProgram(inverse), bp);
      OptionalIn(program, bp);
      OptionalIn(inverse, bp);
    case PartialStatement(_, _, _, program, _) => OptionalIn(program, bp);
    case Decorator(_, _, _, program) => OptionalIn(program, bp);
    case _ => OptionalIn(None, bp);
  }

  /** The programs below a body are its nested programs, each after those below it. */
  lemma {:induction false} BodyIn(body: seq<Statement>, bp: Scope)
    ensures BelowBody(body, bp) == EveryIn(NestedIn(body), bp)
    decreases |body|
  {
    hide BelowStatement, Nested;
    if body != [] {
      StatementIn(body[0], bp);
      BodyIn(body[1..], bp);
      EveryInConcat(Nested(body[0]), NestedIn(body[1..]), bp);
    }
  }

  lemma {:induction false} InEvery(programs: seq<Program>, g: nat, bp: Scope)
    requires g < |programs|
    ensures |Every(programs[g], bp)| <= |EveryIn(programs, bp)|
    ensures forall q :: q in Every(programs[g], bp) ==> q in EveryIn(programs, bp)
    decreases g
  {
    hide Every;
    if g > 0 {
      InEvery(programs[1..], g - 1, bp);
    }
  }

  lemma {:induction false} OfEvery(programs: seq<Program>, q: Scoped, bp: Scope) returns (g: nat)
    requires q in EveryIn(programs, bp)
    ensures g < |programs| && q in Every(programs[g], bp)
    decreases |programs|
  {
    hide Every;
    if q in Every(programs[0], bp) {
      g := 0;
    } else {
      var k := OfEvery(programs[1..], q, bp);
      g := k + 1;
    }
  }

  /** Following a path stays inside the template. */
  lemma {:induction false} ProgramAtIn(p: Program, bp: Scope, path: seq<nat>)
    ensures var r := ProgramAt(Scoped(p, bp), path);
            r.Some? ==> r.value in Every(p, bp) && (path != [] ==> r.value in Below(p, bp))
    decreases |path|
  {
    hide NestedIn, BelowBody;
    var inner := NestedIn(p.body);
    if path != [] && path[0] < |inner| {
      ProgramAtIn(inner[path[0]], [p.blockParams] + bp, path[1..]);
      BodyIn(p.body, [p.blockParams] + bp);
      InEvery(inner, path[0], [p.blockParams] + bp);
    }
  }

  /** Every program of the template is reached by a path. */
  lemma {:induction false} PathTo(p: Program, bp: Scope, q: Scoped) returns (path: seq<nat>)
    requires q in Every(p, bp)
    ensures ProgramAt(Scoped(p, bp), path) == Some(q)
    decreases |Below(p, bp)|
  {
    hide NestedIn, BelowBody;
    if q == Scoped(p, bp) {
      path := [];
    } else {
      var inner, scope := NestedIn(p.body), [p.blockParams] + bp;
      BodyIn(p.body, scope);
      var g := OfEvery(inner, q, scope);
      InEvery(inner, g, scope);
      var rest := PathTo(inner[g], scope, q);
      path := [g] + rest;
      assert path[1..] == rest;
    }
  }

  // ---------- What stands at a path ----------

  /** A finished compilation of a template. */
  ghost predicate Complete(ps: seq<Option<Compiled>>, es: seq<Option<Environment>>, c: Compiled, p: Program, o: Options,
                           bp: Scope) {
    var env := CompileProgram(p, o, bp);
    Table(ps, es, {}, o) && Ordered(es, EnvsBelow(env)) && Generated(env, c, o) && Linked(es, c.indices, env.children)
  }

  lemma {:induction false} CompileAllAt(programs: seq<Program>, o: Options, bp: Scope, g: nat)
    requires g < |programs|
    ensures CompileAll(programs, o, bp)[g] == CompileScoped(Scoped(programs[g], bp), o)
    decreases g
  {
    hide CompileProgram;
    if g > 0 {
      CompileAllAt(programs[1..], o, bp, g - 1);
    }
  }

  lemma ChildAt(q: Scoped, o: Options, g: nat)
    requires g < |NestedIn(q.program.body)|
    ensures var children := CompileScoped(q, o).children;
            |children| == |NestedIn(q.program.body)| &&
            children[g] == CompileScoped(Scoped(NestedIn(q.program.body)[g], [q.program.blockParams] + q.scope), o)
  {
    hide EmitBody, NestedIn, CompileAll, CompileScoped;
    assert CompileScoped(q, o).children == EmitBody(q.program.body, o, [q.program.blockParams] + q.scope,
                                                    0).children by {
      ChildrenAre(q, o);
    }
    ChildrenInOrder(q.program.body, o, [q.program.blockParams] + q.scope, 0);
    CompileAllAt(NestedIn(q.program.body), o, [q.program.blockParams] + q.scope, g);
  }

  lemma ChildrenAre(q: Scoped, o: Options)
    ensures CompileScoped(q, o).children == EmitBody(q.program.body, o, [q.program.blockParams] + q.scope, 0).children
  {
    hide EmitBody;
  }

  /** A path from a compiled program leads to a slot that holds the program reached by it. */
  lemma {:induction false} SlotAt(ps: seq<Option<Compiled>>, es: seq<Option<Environment>>, c: Compiled, q: Scoped,
                                  path: seq<nat>, o: Options)
    returns (i: nat)
    requires Table(ps, es, {}, o) && Linked(es, c.indices, CompileScoped(q, o).children)
    requires path != [] && ProgramAt(q, path).Some?
    ensures i < |ps| && At(ps, c, path) == ps[i] && ps[i].Some? &&
            Holds(es, i, CompileScoped(ProgramAt(q, path).value, o))
    decreases |path|
  {
    hide NestedIn, CompileScoped, WellFormed, Generated, Same;
    var g := path[0];
    var inner := Scoped(NestedIn(q.program.body)[g], [q.program.blockParams] + q.scope);
    ChildAt(q, o, g);
    i := c.indices[g];
    assert Holds(es, i, CompileScoped(inner, o));
    assert Slot(ps, es, i, o);
    if path[1..] != [] {
      SameChildren(es[i].value, CompileScoped(inner, o));
      LinkedSame(es, ps[i].value.indices, es[i].value.children, CompileScoped(inner, o).children);
      i := SlotAt(ps, es, ps[i].value, inner, path[1..], o);
    }
  }

  lemma SameChildren(a: Environment, b: Environment)
    requires Same(a, b)
    ensures AllSame(a.children, b.children) && a.opcodes == b.opcodes
  {
  }

  /** The first program of a list that is equal to q, or q. */
  function FirstEqual(qs: seq<Scoped>, q: Scoped, o: Options): Scoped
    decreases |qs|
  {
    if qs == [] then q else if Same(CompileScoped(qs[0], o), CompileScoped(q, o)) then qs[0]
      else FirstEqual(qs[1..], q, o)
  }

  lemma {:induction false} FirstEqualIs(qs: seq<Scoped>, q: Scoped, o: Options)
    ensures CompileScoped(FirstEqual(qs, q, o), o) == FirstSame(CompileEach(qs, o), CompileScoped(q, o))
    ensures q in qs ==> FirstEqual(qs, q, o) in qs
    ensures Same(CompileScoped(FirstEqual(qs, q, o), o), CompileScoped(q, o))
    decreases |qs|
  {
    hide Same, CompileScoped;
    SameRefl(CompileScoped(q, o));
    if qs != [] {
      FirstEqualIs(qs[1..], q, o);
      assert CompileEach(qs, o)[1..] == CompileEach(qs[1..], o);
    }
  }

  lemma {:induction false} BelowSmaller(envs: seq<Environment>)
    ensures forall x :: x in EnvsIn(envs) ==> Size(x) <= Sizes(envs)
    decreases envs
  {
    if envs != [] {
      BelowSmaller(envs[0].children);
      BelowSmaller(envs[1..]);
    }
  }

  /** No program is equal to one it is nested in. */
  lemma RootIsFirst(p: Program, o: Options, bp: Scope)
    ensures FirstEqual(Every(p, bp), Scoped(p, bp), o) == Scoped(p, bp)
  {
    hide Same, CompileProgram, Below, FirstEqual, EnvsIn, CompileEach;
    var env := CompileProgram(p, o, bp);
    BelowSmaller(env.children);
    BelowCompiles(p, o, bp);
    forall q | q in Below(p, bp)
      ensures !Same(CompileScoped(q, o), env)
    {
      MemberCompiles(Below(p, bp), q, o);
      if Same(CompileScoped(q, o), env) {
        SameSize(CompileScoped(q, o), env);
      }
    }
    FirstEqualAppend(Below(p, bp), [Scoped(p, bp)], Scoped(p, bp), o);
    FirstEqualOne(Scoped(p, bp), o);
  }

  lemma MemberCompiles(qs: seq<Scoped>, q: Scoped, o: Options)
    requires q in qs
    ensures CompileScoped(q, o) in CompileEach(qs, o)
  {
    hide CompileScoped;
    var k :| 0 <= k < |qs| && qs[k] == q;
    assert CompileEach(qs, o)[k] == CompileScoped(q, o);
  }

  lemma FirstEqualOne(q: Scoped, o: Options)
    ensures FirstEqual([q], q, o) == q
  {
    hide Same, CompileScoped;
  }

  lemma {:induction false} FirstEqualAppend(qs: seq<Scoped>, more: seq<Scoped>, q: Scoped, o: Options)
    ensures q in qs ==> FirstEqual(qs + more, q, o) == FirstEqual(qs, q, o)
    ensures (forall r :: r in qs ==> !Same(CompileScoped(r, o), CompileScoped(q, o))) ==>
              FirstEqual(qs + more, q, o) == FirstEqual(more, q, o)
    decreases |qs|
  {
    hide Same, CompileScoped;
    SameRefl(CompileScoped(q, o));
    if qs == [] {
      assert qs + more == more;
    } else {
      assert (qs + more)[1..] == qs[1..] + more;
      FirstEqualAppend(qs[1..], more, q, o);
    }
  }

  /** Whether the function that stands for q is in the form of a single statement. */
  predicate SharedForm(p: Program, bp: Scope, q: Scoped, o: Options) {
    |FirstEqual(Every(p, bp), q, o).program.body| == 1
  }

  /** The function found along the numbers of a program is the program's own, in the form of the first of its equals. */
  lemma FunctionAt(ps: seq<Option<Compiled>>, es: seq<Option<Environment>>, c: Compiled, p: Program, o: Options,
                   bp: Scope, path: seq<nat>)
    requires Complete(ps, es, c, p, o, bp) && ProgramAt(Scoped(p, bp), path).Some?
    ensures var q := ProgramAt(Scoped(p, bp), path).value;
            At(ps, c, path).Some? && At(ps, c, path).value.fn ==
              FunctionOf(CompileScoped(q, o), SharedForm(p, bp, q, o), o)
  {
    hide Same, CompileProgram, Below, FirstEqual, FirstSame, EnvsBelow, CompileEach, FunctionOf, Linked, WellFormed,
         G.Run, NestedIn;
    var q := ProgramAt(Scoped(p, bp), path).value;
    if path == [] {
      RootIsFirst(p, o, bp);
      FormOf(Scoped(p, bp), o);
    } else {
      var env := CompileProgram(p, o, bp);
      var i := SlotAt(ps, es, c, Scoped(p, bp), path, o);
      assert Slot(ps, es, i, o);
      var e := es[i].value;
      BelowCompiles(p, o, bp);
      FirstSameOfSame(EnvsBelow(env), e, CompileScoped(q, o));
      ProgramAtIn(p, bp, path);
      var first := FirstEqual(Every(p, bp), q, o);
      FirstEqualAppend(Below(p, bp), [Scoped(p, bp)], q, o);
      FirstEqualIs(Below(p, bp), q, o);
      FormOf(first, o);
      SameChildren(e, CompileScoped(q, o));
      SameFunction(e, CompileScoped(q, o), o);
    }
  }

  lemma FormOf(q: Scoped, o: Options)
    ensures CompileScoped(q, o).isSimple == (|q.program.body| == 1)
  {
    hide EmitBody;
  }

  lemma SameFunction(a: Environment, b: Environment, o: Options)
    requires a.opcodes == b.opcodes
    ensures forall isSimple :: FunctionOf(a, isSimple, o) == FunctionOf(b, isSimple, o)
  {
    hide G.Run, Build, Finished;
  }

  // ---------- What templates print ----------

  /** The function at the end of the path returns what the program there denotes. */
  ghost predicate PrintsAt<V(!new)>(ps: seq<Option<Compiled>>, c: Compiled, q: Scoped, path: seq<nat>, o: Options,
                                    rt: Runtime<V>) {
    At(ps, c, path).Some? && Answers(At(ps, c, path).value.fn, DenoteProgram(q.program, o, q.scope, rt), rt)
  }

  /** The first of its equals is a single indented partial. */
  predicate CutFirst(p: Program, bp: Scope, q: Scoped, o: Options) { Cut(FirstEqual(Every(p, bp), q, o).program, o) }

  /** One program of a template. */
  lemma PrintsAtIff<V(!new)>(ps: seq<Option<Compiled>>, es: seq<Option<Environment>>, c: Compiled, p: Program,
                             o: Options, bp: Scope,
                             path: seq<nat>, rt: Runtime<V>)
    requires OneMode(o) && FitsTemplate(p, o, bp) && Complete(ps, es, c, p, o, bp) &&
             ProgramAt(Scoped(p, bp), path).Some?
    ensures var q := ProgramAt(Scoped(p, bp), path).value; PrintsAt(ps, c, q, path, o, rt) <==> !CutFirst(p, bp, q, o)
  {
    hide Same, CompileProgram, Below, FirstEqual, FunctionOf, Complete, Answers, DenoteProgram, FitsBody, Cut, At,
         NestedIn;
    var q := ProgramAt(Scoped(p, bp), path).value;
    FunctionAt(ps, es, c, p, o, bp, path);
    ProgramAtIn(p, bp, path);
    var first := FirstEqual(Every(p, bp), q, o);
    FirstEqualIs(Every(p, bp), q, o);
    SameChildren(CompileScoped(first, o), CompileScoped(q, o));
    FormReturnsIff(q.program, q.scope, first.program, first.scope, o, rt);
  }

  /** Every program of a template, found along its numbers, returns what it denotes under a run-time exactly when no
      program that is the first of its equals is a single indented partial. */
  lemma TemplatePrintsIff<V(!new)>(ps: seq<Option<Compiled>>, es: seq<Option<Environment>>, c: Compiled, p: Program,
                                   o: Options, bp: Scope,
                                   rt: Runtime<V>)
    requires OneMode(o) && FitsTemplate(p, o, bp) && Complete(ps, es, c, p, o, bp)
    ensures (forall path :: ProgramAt(Scoped(p, bp), path).Some? ==>
             PrintsAt(ps, c, ProgramAt(Scoped(p, bp), path).value, path, o, rt)) <==>
            (forall q :: q in Every(p, bp) ==> !CutFirst(p, bp, q, o))
  {
    hide Complete, PrintsAt, CutFirst, FitsTemplate, Every, ProgramAt;
    forall path | ProgramAt(Scoped(p, bp), path).Some?
      ensures var q := ProgramAt(Scoped(p, bp), path).value;
              q in Every(p, bp) && (PrintsAt(ps, c, q, path, o, rt) <==> !CutFirst(p, bp, q, o))
    {
      PrintsAtIff(ps, es, c, p, o, bp, path, rt);
      ProgramAtIn(p, bp, path);
    }
    if exists q :: q in Every(p, bp) && CutFirst(p, bp, q, o) {
      var q :| q in Every(p, bp) && CutFirst(p, bp, q, o);
      var path := PathTo(p, bp, q);
      assert ProgramAt(Scoped(p, bp), path) == Some(q);
    }
  }

  // ---------- What sharing changes ----------

  /** The function at the end of the path returns what the program's own function would. */
  ghost predicate OwnAt<V(!new)>(ps: seq<Option<Compiled>>, c: Compiled, q: Scoped, path: seq<nat>, o: Options,
                                 rt: Runtime<V>) {
    At(ps, c, path).Some? && Agree(FunctionOf(CompileScoped(q, o), |q.program.body| == 1, o), At(ps, c, path).value.fn,
                                   rt)
  }

  /** Equal programs, one of which is a single indented partial and the other has several statements. */
  predicate Mixed(a: Scoped, b: Scoped, o: Options) {
    Same(CompileScoped(a, o), CompileScoped(b, o)) && Cut(a.program, o) && |b.program.body| != 1
  }

  lemma OwnAtIff<V(!new)>(ps: seq<Option<Compiled>>, es: seq<Option<Environment>>, c: Compiled, p: Program, o: Options,
                          bp: Scope,
                          path: seq<nat>, rt: Runtime<V>)
    requires OneMode(o) && FitsTemplate(p, o, bp) && Complete(ps, es, c, p, o, bp) &&
             ProgramAt(Scoped(p, bp), path).Some?
    ensures var q := ProgramAt(Scoped(p, bp), path).value;
            var first := FirstEqual(Every(p, bp), q, o);
            first in Every(p, bp) && (OwnAt(ps, c, q, path, o, rt) <==> !Mixed(first, q, o) && !Mixed(q, first, o))
  {
    hide Same, CompileProgram, Below, FirstEqual, FunctionOf, Complete, Agree, FitsBody, At, NestedIn;
    var q := ProgramAt(Scoped(p, bp), path).value;
    FunctionAt(ps, es, c, p, o, bp, path);
    ProgramAtIn(p, bp, path);
    var first := FirstEqual(Every(p, bp), q, o);
    FirstEqualIs(Every(p, bp), q, o);
    SameSymmetric(CompileScoped(first, o), CompileScoped(q, o));
    SameChildren(CompileScoped(first, o), CompileScoped(q, o));
    FormsAgreeIff(q.program, q.scope, first.program, first.scope, o, rt);
  }

  /** Of equal programs a and b, one cut and the other not single, one differs so from the first of their equals. */
  lemma MixedWithFirst<V(!new)>(p: Program, bp: Scope, a: Scoped, b: Scoped, o: Options, rt: Runtime<V>)
    requires OneMode(o) && FitsTemplate(p, o, bp) && a in Every(p, bp) && b in Every(p, bp) && Mixed(a, b, o)
    ensures FirstEqual(Every(p, bp), a, o) == FirstEqual(Every(p, bp), b, o)
    ensures var first := FirstEqual(Every(p, bp), a, o); Mixed(first, b, o) || Mixed(a, first, o)
  {
    hide Same, CompileProgram, FitsBody, Every;
    var qs := Every(p, bp);
    var first := FirstEqual(qs, a, o);
    FirstEqualOfSame(qs, a, b, o);
    FirstEqualIs(qs, a, o);
    FirstEqualIs(qs, b, o);
    SameSymmetric(CompileScoped(first, o), CompileScoped(a, o));
    if |first.program.body| == 1 {
      SameChildren(CompileScoped(first, o), CompileScoped(a, o));
      CutTogether(first.program, first.scope, a.program, a.scope, o, rt);
    }
  }

  lemma {:induction false} FirstEqualOfSame(qs: seq<Scoped>, a: Scoped, b: Scoped, o: Options)
    requires Same(CompileScoped(a, o), CompileScoped(b, o)) && a in qs
    ensures FirstEqual(qs, a, o) == FirstEqual(qs, b, o)
    decreases |qs|
  {
    hide Same, CompileScoped;
    var x, y, z := CompileScoped(a, o), CompileScoped(b, o), CompileScoped(qs[0], o);
    SameSymmetric(z, x);
    SameSymmetric(z, y);
    SameTrans(x, y, z);
    SameRefl(x);
    if !Same(z, x) {
      FirstEqualOfSame(qs[1..], a, b, o);
    }
  }

  /** Sharing changes nothing that a program returns exactly when the template has no two equal programs of which one
      is a single indented partial and the other has several statements. */
  lemma SharingHarmlessIff<V(!new)>(ps: seq<Option<Compiled>>, es: seq<Option<Environment>>, c: Compiled, p: Program,
                                    o: Options, bp: Scope,
                                    rt: Runtime<V>)
    requires OneMode(o) && FitsTemplate(p, o, bp) && Complete(ps, es, c, p, o, bp)
    ensures (forall path :: ProgramAt(Scoped(p, bp), path).Some? ==>
             OwnAt(ps, c, ProgramAt(Scoped(p, bp), path).value, path, o, rt)) <==>
            (forall a, b :: a in Every(p, bp) && b in Every(p, bp) ==> !Mixed(a, b, o))
  {
    hide Complete, OwnAt, Mixed, FitsTemplate, Every, ProgramAt, FirstEqual;
    forall path | ProgramAt(Scoped(p, bp), path).Some?
      ensures var q := ProgramAt(Scoped(p, bp), path).value;
              var first := FirstEqual(Every(p, bp), q, o);
              q in Every(p, bp) && first in Every(p, bp) &&
              (OwnAt(ps, c, q, path, o, rt) <==> !Mixed(first, q, o) && !Mixed(q, first, o))
    {
      OwnAtIff(ps, es, c, p, o, bp, path, rt);
      ProgramAtIn(p, bp, path);
    }
    if exists a, b :: a in Every(p, bp) && b in Every(p, bp) && Mixed(a, b, o) {
      var a, b :| a in Every(p, bp) && b in Every(p, bp) && Mixed(a, b, o);
      MixedWithFirst(p, bp, a, b, o, rt);
      var toA := PathTo(p, bp, a);
      var toB := PathTo(p, bp, b);
      assert ProgramAt(Scoped(p, bp), toA) == Some(a) && ProgramAt(Scoped(p, bp), toB) == Some(b);
    }
  }

  // ---------- An input where it does ----------

  const INDENTED := PartialStatement(Named("p"), [], NoHash, None, "  ")
  const ALONE := Program([INDENTED], None)
  const WITH_COMMENT := Program([INDENTED, CommentStatement], None)

  function BlockOf(name: string, p: Program): Statement {
    BlockStatement(Path(false, 0, [name], name), [], NoHash, Some(p), None)
  }

  /** `{{#x}}` around an indented partial, then `{{#y}}` around the same partial and a comment. */
  const TWO_BLOCKS := Program([BlockOf("x", ALONE), BlockOf("y", WITH_COMMENT)], None)

  lemma BelowCons(m: Statement, rest: seq<Statement>, bp: Scope)
    ensures BelowBody([m] + rest, bp) == BelowStatement(m, bp) + BelowBody(rest, bp)
    ensures NestedIn([m] + rest) == Nested(m) + NestedIn(rest) && BelowBody([], bp) == [] && NestedIn([]) == []
  {
    hide BelowStatement, Nested;
    assert ([m] + rest)[1..] == rest;
  }

  lemma NothingBelow(p: Program, bp: Scope)
    requires p == ALONE || p == WITH_COMMENT
    ensures Below(p, bp) == []
  {
    hide BelowBody;
    var inner := [p.blockParams] + bp;
    BelowCons(INDENTED, [], inner);
    BelowCons(CommentStatement, [], inner);
    BelowCons(INDENTED, [CommentStatement], inner);
    assert [INDENTED] + [] == ALONE.body && [CommentStatement] + [] == [CommentStatement];
    assert [INDENTED] + [CommentStatement] == WITH_COMMENT.body;
  }

  lemma TwoBlocks()
    ensures NestedIn(TWO_BLOCKS.body) == [ALONE, WITH_COMMENT]
    ensures Below(TWO_BLOCKS, []) == [Scoped(ALONE, [None]), Scoped(WITH_COMMENT, [None])]
  {
    hide BelowBody, NestedIn, Below;
    var x, y := BlockOf("x", ALONE), BlockOf("y", WITH_COMMENT);
    NothingBelow(ALONE, [None]);
    NothingBelow(WITH_COMMENT, [None]);
    BelowCons(y, [], [None]);
    BelowCons(x, [y], [None]);
    assert [y] + [] == [y] && [x] + [y] == TWO_BLOCKS.body;
    BelowIs(TWO_BLOCKS, []);
    assert [TWO_BLOCKS.blockParams] + [] == [None];
  }

  lemma BelowIs(p: Program, bp: Scope)
    ensures Below(p, bp) == BelowBody(p.body, [p.blockParams] + bp)
  {
    hide BelowBody;
  }

  /** The comment emits nothing, so the two programs are equal, but their forms are not. */
  lemma CommentChangesForm(o: Options)
    ensures Same(CompileScoped(Scoped(ALONE, [None]), o), CompileScoped(Scoped(WITH_COMMENT, [None]), o))
    ensures o.preventIndent ==> Mixed(Scoped(ALONE, [None]), Scoped(WITH_COMMENT, [None]), o)
  {
    hide EmitPartial;
    var inner: Scope := [None, None];
    assert [ALONE.blockParams] + [None] == inner == [WITH_COMMENT.blockParams] + [None];
    var first := EmitStatement(INDENTED, o, inner, 0);
    assert first.children == [];
    assert ALONE.body[1..] == [] && WITH_COMMENT.body[1..] == [CommentStatement] && [CommentStatement][1..] == [];
    assert EmitBody([CommentStatement], o, inner, 0) == Emission([] + [], [] + []);
    assert EmitBody(ALONE.body, o, inner, 0) == Emission(first.opcodes + [], first.children + []);
    assert EmitBody(WITH_COMMENT.body, o, inner, 0) == Emission(first.opcodes + ([] + []), first.children + ([] + []));
  }

  /** In this template the second block returns only the indent, although its own function would return everything. */
  lemma SharedIndentLosesPartial<V(!new)>(ps: seq<Option<Compiled>>, es: seq<Option<Environment>>, c: Compiled,
                                          o: Options, rt: Runtime<V>)
    requires OneMode(o) && !o.explicitPartialContext && o.preventIndent && Complete(ps, es, c, TWO_BLOCKS, o, [])
    ensures ProgramAt(Scoped(TWO_BLOCKS, []), [1]) == Some(Scoped(WITH_COMMENT, [None])) && !Cut(WITH_COMMENT, o)
    ensures !PrintsAt(ps, c, Scoped(WITH_COMMENT, [None]), [1], o, rt) &&
            !OwnAt(ps, c, Scoped(WITH_COMMENT, [None]), [1], o, rt)
  {
    hide Complete, PrintsAt, OwnAt, Same, CompileScoped, FitsTemplate, Below, NestedIn, FirstEqual;
    TwoBlocks();
    TwoBlocksFit(o);
    CommentChangesForm(o);
    var q := Scoped(WITH_COMMENT, [None]);
    assert [1][1..] == [] && [TWO_BLOCKS.blockParams] + [] == [None];
    FirstIsAlone(o);
    PrintsAtIff(ps, es, c, TWO_BLOCKS, o, [], [1], rt);
    OwnAtIff(ps, es, c, TWO_BLOCKS, o, [], [1], rt);
  }

  lemma TwoBlocksFit(o: Options)
    requires !o.explicitPartialContext
    ensures FitsTemplate(TWO_BLOCKS, o, [])
  {
    hide Below;
    TwoBlocks();
    forall q | q in Every(TWO_BLOCKS, [])
      ensures FitsBody(q.program.body, o, [q.program.blockParams] + q.scope)
    {
      assert q.program == ALONE || q.program == WITH_COMMENT || q.program == TWO_BLOCKS;
    }
  }

  lemma FirstIsAlone(o: Options)
    ensures FirstEqual(Every(TWO_BLOCKS, []), Scoped(WITH_COMMENT, [None]), o) == Scoped(ALONE, [None])
  {
    hide Same, CompileScoped, Below;
    TwoBlocks();
    CommentChangesForm(o);
    assert Every(TWO_BLOCKS, [])[0] == Scoped(ALONE, [None]);
  }

  // ---------- The whole compilation ----------

  /** Compiles a template; whatever keeps its arguments together compiles without an exception. */
  method CompileTemplate(p: Program, options: Options, bp: Scope)
    returns (ok: bool, context: ProgramContext, compiled: Compiled)
    ensures ok ==> Complete(context.programs, context.environments, compiled, p, options, bp)
    ensures CompilesCleanly(CompileProgram(p, options, bp), options) ==> ok
  {
    hide CompileProgram, CompilesCleanly, WellFormed, Linked, Table, Ordered, Generated;
    var env := CompileProgram(p, options, bp);
    CompiledWellFormed(p, options, bp);
    context := new ProgramContext(options);
    ok, compiled := context.Compile(env, {});
    assert ok ==> context.seen == [] + EnvsBelow(env) == EnvsBelow(env);
  }
}
