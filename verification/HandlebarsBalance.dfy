/** Exactly which statements compile: the ones whose pushes and pops balance. */
module HandlebarsBalance {
  import opened Wrappers
  import opened HandlebarsCompiler
  import opened HandlebarsCodegen
  import opened HandlebarsSemantics
  import opened HandlebarsCorrect
  import opened HandlebarsOutput
  import opened HandlebarsHeights

  // ---------- Nesting of hashes ----------

  function HashDepth(s: State): nat { |s.hashes| + if s.hash.Some? then 1 else 0 }

  predicate SameHash(s: State, t: State) { s.hash == t.hash && s.hashes == t.hashes }

  predicate HashOp(op: Opcode) { op.PushHash? || op.PopHash? || op.AssignToHash? }

  lemma SetupKeeps(s: State, name: string, n: nat, o: Options)
    ensures SetupParams(s, name, n, o).Some? ==> SameRest(s, SetupParams(s, name, n, o).value.rest)
  {
    hide PopArg, PopArgs, PopOptional, OrNoop, Picked;
    var h := PopArg(s, o);
    PopArgKeeps(s, o);
    if h.Some? {
      var inverse := PopOptional(h.value.1, true);
      PopKeeps(h.value.1, true);
      if inverse.Some? {
        var program := PopOptional(inverse.value.1, true);
        PopKeeps(inverse.value.1, true);
        if program.Some? {
          PopArgsKeeps(program.value.1, n, o);
        }
      }
    }
  }

  lemma {:induction false} ResolveSameHash(s: State, parts: seq<string>, falsy: bool)
    ensures ResolvePath(s, parts, falsy).Some? ==> SameHash(s, ResolvePath(s, parts, falsy).value)
    decreases |parts|
  {
    if parts != [] {
      var t := ReplaceStack(s, if falsy then AndMember(parts[0]) else NotNullMember(parts[0]));
      if t.Some? {
        ResolveSameHash(t.value, parts[1..], falsy);
      }
    }
  }

  lemma {:induction false} FlushSameHash(s: State, entries: seq<Slot>)
    ensures SameHash(s, FlushEntries(s, entries))
    decreases |entries|
  {
    if entries != [] {
      if entries[0].Lit? {
        FlushSameHash(s.(compileStack := s.compileStack + [entries[0]]), entries[1..]);
      } else {
        var t := IncrStack(s);
        var u := PushSource(t, [SetTmp(t.stackSlot, entries[0].code)]);
        FlushSameHash(u.(compileStack := u.compileStack + [Inline(Tmp(t.stackSlot))]), entries[1..]);
      }
    }
  }

  lemma InvokeSameHash(s: State, op: Opcode, o: Options)
    requires op.InvokeKnownHelper? || op.InvokeHelper? || op.InvokeAmbiguous? || op.InvokePartial? ||
             op.RegisterDecorator?
    ensures InvokeStep(s, op, o).Some? ==> SameHash(s, InvokeStep(s, op, o).value)
  {
    hide SetupParams, PopOptional, Picked;
    PopIsPop(s);
    PopKeeps(s, true);
    var s1 := if (op.InvokeHelper? || op.InvokeAmbiguous?) && PopStack(s).Some? then PopStack(s).value.1 else s;
    var s2 := if op.InvokeAmbiguous? then EmptyHashStep(s1, false, o) else s1;
    var n := if op.InvokeAmbiguous? then 0 else if op.InvokePartial? then 1 else op.paramSize;
    SetupKeeps(s2, op.name, n, o);
    if op.InvokePartial? && SetupParams(s2, op.name, n, o).Some? {
      PopKeeps(SetupParams(s2, op.name, n, o).value.rest, op.isDynamic);
    }
  }

  lemma BlockSameHash(s: State, op: Opcode, o: Options)
    requires op.BlockValue? || op.AmbiguousBlockValue?
    ensures BlockStep(s, op, o).Some? ==> SameHash(s, BlockStep(s, op, o).value)
  {
    hide SetupParams, PopStack, FlushEntries;
    var name := if op.BlockValue? then op.name else "";
    SetupKeeps(s, name, 0, o);
    if SetupParams(s, name, 0, o).Some? {
      var rest := SetupParams(s, name, 0, o).value.rest;
      PopIsPop(rest);
      PopKeeps(rest, true);
      FlushSameHash(rest.(inlineStack := []), rest.inlineStack);
    }
  }

  lemma StepSameHash(s: State, op: Opcode, o: Options)
    requires !HashOp(op)
    ensures Step(s, op, o).Some? ==> SameHash(s, Step(s, op, o).value)
  {
    hide InvokeStep, BlockStep, ResolvePath;
    if op.InvokePartial? || op.InvokeKnownHelper? || op.InvokeHelper? || op.InvokeAmbiguous? || op.RegisterDecorator? {
      InvokeSameHash(s, op, o);
    } else if op.BlockValue? || op.AmbiguousBlockValue? {
      BlockSameHash(s, op, o);
    } else if op.LookupBlockParam? {
      ResolveSameHash(Push(s, Inline(Atomic(BlockParam(op.depth, op.index)))), if op.parts == [] then []
                      else op.parts[1..], false);
    } else if op.LookupData? {
      ResolveSameHash(Push(s, Lit(Atomic(Data(op.depth)))), op.parts, true);
    } else if op.LookupOnContext? {
      ResolveSameHash(Push(s, Lit(Atomic(Context(s.lastContext)))), op.parts, op.falsy);
    }
  }

  function NextDepth(d: nat, op: Opcode): nat {
    if op.PushHash? then d + 1 else if op.PopHash? && d > 0 then d - 1 else d
  }

  lemma StepDepth(s: State, op: Opcode, o: Options)
    requires Ready(s) && Step(s, op, o).Some?
    ensures Ready(Step(s, op, o).value) && HashDepth(Step(s, op, o).value) == NextDepth(HashDepth(s), op)
  {
    if HashOp(op) {
      hide PopArg, SetKey;
      if op.AssignToHash? {
        PopArgKeeps(s, o);
      }
    } else {
      StepSameHash(s, op, o);
      hide Step;
    }
  }

  // ---------- Running with enough on the stacks ----------

  /** From h entries and d open hashes no opcode finds too little. */
  predicate Fine(h: int, d: nat, ops: seq<Opcode>, o: Options)
    decreases |ops|
  {
    ops == [] ||
    (h >= Need(ops[0], o) && (ops[0].PopHash? || ops[0].AssignToHash? ==> d > 0) &&
     (ops[0].AssignToHash? ==> PlainKey(ops[0].key)) &&
     Fine(h + Delta(ops[0], o), NextDepth(d, ops[0]), ops[1..], o))
  }

  function DepthAfter(d: nat, ops: seq<Opcode>): nat
    decreases |ops|
  {
    if ops == [] then d else DepthAfter(NextDepth(d, ops[0]), ops[1..])
  }

  predicate AllListed(s: State) {
    (s.hash.Some? ==> Listed(s.hash.value)) && forall i :: 0 <= i < |s.hashes| ==> Listed(s.hashes[i])
  }

  lemma {:induction false} PutListable(es: seq<Entry>, key: string, code: Code)
    requires Listable(es) && key != "hasOwnProperty"
    ensures Listable(PutEntry(es, key, code))
    decreases |es|
  {
    if es != [] && es[0].key != key {
      PutListable(es[1..], key, code);
    }
  }

  /** Keys an array holds leave every hash listable. */
  lemma StepListed(s: State, op: Opcode, o: Options)
    requires AllListed(s) && (op.AssignToHash? ==> PlainKey(op.key)) && Step(s, op, o).Some?
    ensures AllListed(Step(s, op, o).value)
  {
    if op.AssignToHash? {
      hide PopArg, PutEntry, Listable;
      PopArgKeeps(s, o);
      var arg, h := PopArg(s, o).value.0, s.hash.value;
      PutListable(h.values, op.key, arg.param);
      PutListable(h.ids, op.key, arg.id);
      PutListable(h.types, op.key, arg.typ);
      PutListable(h.contexts, op.key, arg.context);
    } else if !HashOp(op) {
      StepSameHash(s, op, o);
      hide Step, Listed;
    }
  }

  predicate Sound(s: State) { SlotsMatch(s) && Ready(s) && AllListed(s) }

  lemma {:induction false} FineRuns(s: State, ops: seq<Opcode>, o: Options)
    requires Sound(s) && Fine(Height(s), HashDepth(s), ops, o)
    ensures Run(s, ops, o).Some? && Sound(Run(s, ops, o).value)
    ensures Height(Run(s, ops, o).value) == Height(s) + DeltaAll(ops, o)
    ensures HashDepth(Run(s, ops, o).value) == DepthAfter(HashDepth(s), ops)
    decreases |ops|
  {
    hide Step, Delta, Need, SlotsMatch, Height, Listed;
    if ops != [] {
      StepSome(s, ops[0], o);
      StepListed(s, ops[0], o);
      StepMoves(s, ops[0], o);
      StepDepth(s, ops[0], o);
      FineRuns(Step(s, ops[0], o).value, ops[1..], o);
    }
  }

  lemma {:induction false} FineAppend(h: int, d: nat, a: seq<Opcode>, b: seq<Opcode>, o: Options)
    ensures Fine(h, d, a + b, o) <==> Fine(h, d, a, o) && Fine(h + DeltaAll(a, o), DepthAfter(d, a), b, o)
    ensures DeltaAll(a + b, o) == DeltaAll(a, o) + DeltaAll(b, o) &&
            DepthAfter(d, a + b) == DepthAfter(DepthAfter(d, a), b)
    decreases |a|
  {
    hide Delta, Need, NextDepth;
    if a == [] {
      assert a + b == b;
    } else {
      assert (a + b)[1..] == a[1..] + b;
      FineAppend(h + Delta(a[0], o), NextDepth(d, a[0]), a[1..], b, o);
    }
  }

  /** The opcodes add n entries less the lost ones and close every hash they open; if nothing is
      lost they run from h entries and d open hashes. */
  predicate Balance(h: int, d: nat, ops: seq<Opcode>, n: int, lost: nat, o: Options) {
    DeltaAll(ops, o) == n - lost && DepthAfter(d, ops) == d && (lost == 0 ==> Fine(h, d, ops, o))
  }

  lemma BalanceAppend(h: int, d: nat, a: seq<Opcode>, n: int, l: nat, b: seq<Opcode>, m: int, k: nat, o: Options)
    requires Balance(h, d, a, n, l, o) && Balance(h + n, d, b, m, k, o)
    ensures Balance(h, d, a + b, n + m, l + k, o)
  {
    FineAppend(h, d, a, b, o);
  }

  lemma BalanceNone(h: int, d: nat, o: Options)
    ensures Balance(h, d, [], 0, 0, o)
  {
  }

  lemma FineOne(h: int, d: nat, op: Opcode, o: Options)
    requires h >= Need(op, o) && (op.PopHash? || op.AssignToHash? ==> d > 0) && (op.AssignToHash? ==> PlainKey(op.key))
    ensures Fine(h, d, [op], o) && DeltaAll([op], o) == Delta(op, o) && DepthAfter(d, [op]) == NextDepth(d, op)
  {
    hide Need, Delta, NextDepth;
    var ops := [op];
    assert ops[1..] == [];
    assert Fine(h + Delta(op, o), NextDepth(d, op), ops[1..], o);
    assert DeltaAll(ops[1..], o) == 0 && DepthAfter(NextDepth(d, op), ops[1..]) == NextDepth(d, op);
  }

  lemma BalanceOne(h: int, d: nat, op: Opcode, o: Options)
    requires h >= Need(op, o) && !op.PushHash? && !op.PopHash?
    requires op.AssignToHash? ==> d > 0 && PlainKey(op.key)
    ensures Balance(h, d, [op], Delta(op, o), 0, o)
  {
    FineOne(h, d, op, o);
  }

  lemma BalanceTwo(h: int, d: nat, a: Opcode, b: Opcode, o: Options)
    requires h >= Need(a, o) && !HashOp(a) && h + Delta(a, o) >= Need(b, o) && !HashOp(b)
    ensures Balance(h, d, [a, b], Delta(a, o) + Delta(b, o), 0, o)
  {
    hide Need, Delta;
    BalanceOne(h, d, a, o);
    BalanceOne(h + Delta(a, o), d, b, o);
    BalanceAppend(h, d, [a], Delta(a, o), 0, [b], Delta(b, o), 0, o);
    assert [a] + [b] == [a, b];
  }

  // ---------- The arguments of a syntax tree ----------

  /** The arguments passed by the helper calls in an expression. */
  function Arguments(e: Expr, o: Options, bp: Scope): nat
    decreases e, 1
  {
    if e.SubExpression? && ClassifySexpr(o, bp, e.callee, true).Helper? then
      ArgumentsIn(e.params, o, bp) + ArgumentsInHash(e.hash, o, bp)
    else 0
  }

  function ArgumentsIn(params: seq<Expr>, o: Options, bp: Scope): nat
    decreases params
  {
    if params == [] then 0 else 1 + Arguments(params[0], o, bp) + ArgumentsIn(params[1..], o, bp)
  }

  function ArgumentsInPairs(pairs: seq<Pair>, o: Options, bp: Scope): nat
    decreases pairs
  {
    if pairs == [] then 0 else 1 + Arguments(pairs[0].value, o, bp) + ArgumentsInPairs(pairs[1..], o, bp)
  }

  function ArgumentsInHash(hash: Hash, o: Options, bp: Scope): nat
    decreases hash
  {
    if hash.Pairs? then ArgumentsInPairs(hash.pairs, o, bp) else 0
  }

  /** In stringParams mode pushParam leaves the id out, which trackIds mode pops. */
  function Lost(o: Options, arguments: nat): nat { if OneMode(o) then 0 else arguments }

  lemma PathBalance(h: nat, d: nat, p: Path, falsy: bool, strict: bool, o: Options, bp: Scope)
    ensures Balance(h, d, EmitPath(p, falsy, strict, bp), 1, 0, o)
  {
    hide BlockParamIndex, ScopedId, Balance;
    var ops := EmitPath(p, falsy, strict, bp);
    BalanceTwo(h, d, ops[0], ops[1], o);
    assert ops == [ops[0], ops[1]];
  }

  lemma {:induction false} ExprBalance(h: nat, d: nat, e: Expr, o: Options, bp: Scope)
    requires PlainExpr(e)
    ensures Balance(h, d, EmitExpr(e, o, bp), 1, Lost(o, Arguments(e, o, bp)), o)
    decreases e, 1
  {
    hide Balance, EmitPath, ClassifySexpr, EmitParams, EmitHash, EmitInvoke, EmitAmbiguous, PlainExprs, PlainHash,
         ArgumentsIn, ArgumentsInHash;
    match e
    case PathExpression(p) => PathBalance(h, d, p, false, false, o, bp);
    case SubExpression(p, params, hash) =>
      SubNeverAmbiguous(o, bp, p);
      if ClassifySexpr(o, bp, p, true).Helper? {
        CallBalance(h, d, e, p, params, hash, None, None, o, bp);
      } else {
        LambdaBalance(h, d, p, o, bp);
      }
    case StringLiteral(t) => BalanceOne(h, d, PushString(t), o);
    case NumberLiteral(x, u) => BalanceOne(h, d, PushLiteral(Number(x, u)), o);
    case BooleanLiteral(b) => BalanceOne(h, d, PushLiteral(Bool(b)), o);
    case UndefinedLiteral => BalanceOne(h, d, PushLiteral(Undefined), o);
    case NullLiteral => BalanceOne(h, d, PushLiteral(Null), o);
  }

  lemma LambdaBalance(h: nat, d: nat, p: Path, o: Options, bp: Scope)
    ensures Balance(h, d, EmitPath(p, false, true, bp) + [ResolvePossibleLambda], 1, 0, o)
  {
    hide Balance, EmitPath;
    PathBalance(h, d, p, false, true, o, bp);
    BalanceOne(h + 1, d, ResolvePossibleLambda, o);
    BalanceAppend(h, d, EmitPath(p, false, true, bp), 1, 0, [ResolvePossibleLambda], 0, 0, o);
  }

  lemma BalanceWeaken(h: int, d: nat, ops: seq<Opcode>, n: int, l: nat, m: int, k: nat, o: Options)
    requires Balance(h, d, ops, n, l, o) && n - l == m - k && (k == 0 ==> l == 0)
    ensures Balance(h, d, ops, m, k, o)
  {
  }

  lemma {:induction false} ParamBalance(h: nat, d: nat, e: Expr, o: Options, bp: Scope)
    requires PlainExpr(e)
    ensures Balance(h, d, EmitParam(e, o, bp), Popped(o), Lost(o, 1 + Arguments(e, o, bp)), o)
    decreases e, 2
  {
    hide Balance, EmitExpr, Arguments, IdOf, StringModeValue;
    var lost := Lost(o, Arguments(e, o, bp));
    if o.stringParams {
      var typ := PushStringParam(StringModeValue(e), TypeName(e));
      var context := GetContext(if e.PathExpression? then e.path.depth else 0);
      BalanceTwo(h, d, context, typ, o);
      TypeNames(e);
      if e.SubExpression? {
        ExprBalance(h + 2, d, e, o, bp);
        BalanceAppend(h, d, [context, typ], 2, 0, EmitExpr(e, o, bp), 1, lost, o);
        BalanceWeaken(h, d, [context, typ] + EmitExpr(e, o, bp), 3, lost, Popped(o), Lost(o, 1 + Arguments(e, o, bp)),
                      o);
      } else {
        NoArguments(e, o, bp);
        assert [context, typ] + [] == [context, typ];
        BalanceWeaken(h, d, [context, typ], 3, 0, Popped(o), Lost(o, 1), o);
      }
    } else if o.trackIds {
      BalanceOne(h, d, PushId(IdOf(e, bp)), o);
      ExprBalance(h + 1, d, e, o, bp);
      BalanceAppend(h, d, [PushId(IdOf(e, bp))], 1, 0, EmitExpr(e, o, bp), 1, lost, o);
    } else {
      ExprBalance(h, d, e, o, bp);
      assert [] + EmitExpr(e, o, bp) == EmitExpr(e, o, bp);
    }
  }

  lemma NoArguments(e: Expr, o: Options, bp: Scope)
    requires !e.SubExpression?
    ensures Arguments(e, o, bp) == 0
  {
  }

  lemma {:induction false} ParamsBalance(h: nat, d: nat, es: seq<Expr>, o: Options, bp: Scope)
    requires PlainExprs(es)
    ensures Balance(h, d, EmitParams(es, o, bp), Times(|es|, Popped(o)), Lost(o, ArgumentsIn(es, o, bp)), o)
    decreases es, 3
  {
    hide Balance, EmitParam, Arguments, PlainExpr;
    if es == [] {
      BalanceNone(h, d, o);
    } else {
      ParamBalance(h, d, es[0], o, bp);
      ParamsBalance(h + Popped(o), d, es[1..], o, bp);
      BalanceAppend(h, d, EmitParam(es[0], o, bp), Popped(o), Lost(o, 1 + Arguments(es[0], o, bp)),
                    EmitParams(es[1..], o, bp), Times(|es| - 1, Popped(o)), Lost(o, ArgumentsIn(es[1..], o, bp)), o);
    }
  }

  lemma {:induction false} ValuesBalance(h: nat, d: nat, pairs: seq<Pair>, o: Options, bp: Scope)
    requires PlainPairs(pairs)
    ensures Balance(h, d, EmitValues(pairs, o, bp), Times(|pairs|, Popped(o)), Lost(o, ArgumentsInPairs(pairs, o, bp)),
                    o)
    decreases pairs
  {
    hide Balance, EmitParam, Arguments, PlainExpr;
    if pairs == [] {
      BalanceNone(h, d, o);
    } else {
      ParamBalance(h, d, pairs[0].value, o, bp);
      ValuesBalance(h + Popped(o), d, pairs[1..], o, bp);
      BalanceAppend(h, d, EmitParam(pairs[0].value, o, bp), Popped(o), Lost(o, 1 + Arguments(pairs[0].value, o, bp)),
                    EmitValues(pairs[1..], o, bp), Times(|pairs| - 1, Popped(o)),
                    Lost(o, ArgumentsInPairs(pairs[1..], o, bp)), o);
    }
  }

  lemma {:induction false} KeysBalance(h: nat, d: nat, pairs: seq<Pair>, o: Options)
    requires PlainPairs(pairs) && d > 0 && h >= Times(|pairs|, Popped(o))
    ensures Balance(h, d, EmitKeys(pairs), -Times(|pairs|, Popped(o)), 0, o)
    decreases pairs
  {
    hide Balance, PlainExpr;
    if pairs == [] {
      BalanceNone(h, d, o);
    } else {
      TimesPositive(|pairs| - 1, Popped(o));
      KeysBalance(h, d, pairs[1..], o);
      var n := -Times(|pairs| - 1, Popped(o));
      BalanceOne(h + n, d, AssignToHash(pairs[0].key), o);
      BalanceAppend(h, d, EmitKeys(pairs[1..]), n, 0, [AssignToHash(pairs[0].key)], -Popped(o), 0, o);
    }
  }

  /** pushHash and popHash around balanced opcodes. */
  lemma Bracket(h: int, d: nat, ops: seq<Opcode>, n: int, lost: nat, o: Options)
    requires h + n >= 0 && h >= 0 && Balance(h, d + 1, ops, n, lost, o)
    ensures Balance(h, d, [PushHash] + ops + [PopHash], n + Popped(o), lost, o)
  {
    FineOne(h, d, PushHash, o);
    FineOne(h + n, d + 1, PopHash, o);
    FineAppend(h, d, [PushHash], ops, o);
    FineAppend(h, d, [PushHash] + ops, [PopHash], o);
  }

  lemma {:induction false} HashBalance(h: nat, d: nat, hash: Hash, omitEmpty: bool, o: Options, bp: Scope)
    requires PlainHash(hash)
    ensures Balance(h, d, EmitHash(hash, omitEmpty, o, bp), Popped(o), Lost(o, ArgumentsInHash(hash, o, bp)), o)
    decreases hash
  {
    hide Balance, EmitValues, EmitKeys, ArgumentsInPairs, PlainPairs;
    if hash.Pairs? {
      var n, lost := Times(|hash.pairs|, Popped(o)), Lost(o, ArgumentsInPairs(hash.pairs, o, bp));
      TimesPositive(|hash.pairs|, Popped(o));
      ValuesBalance(h, d + 1, hash.pairs, o, bp);
      KeysBalance(h + n, d + 1, hash.pairs, o);
      BalanceAppend(h, d + 1, EmitValues(hash.pairs, o, bp), n, lost, EmitKeys(hash.pairs), -n, 0, o);
      Bracket(h, d, EmitValues(hash.pairs, o, bp) + EmitKeys(hash.pairs), 0, lost, o);
      assert [PushHash] + (EmitValues(hash.pairs, o, bp) + EmitKeys(hash.pairs)) + [PopHash] ==
             [PushHash] + EmitValues(hash.pairs, o, bp) + EmitKeys(hash.pairs) + [PopHash];
    } else {
      BalanceOne(h, d, EmptyHash(omitEmpty), o);
    }
  }

  function CallArgumentCount(params: seq<Expr>, hash: Hash, o: Options, bp: Scope): nat {
    ArgumentsIn(params, o, bp) + ArgumentsInHash(hash, o, bp)
  }

  lemma {:induction false} ArgumentsBalance(h: nat, d: nat, owner: Expr, params: seq<Expr>, hash: Hash, omitEmpty: bool,
                                            g: Option<nat>, i: Option<nat>, o: Options, bp: Scope)
    requires PlainExprs(params) && PlainHash(hash)
    requires owner.SubExpression? && owner.params == params && owner.hash == hash
    ensures Balance(h, d, EmitParams(params, o, bp) + [PushProgram(g), PushProgram(i)] +
                    EmitHash(hash, omitEmpty, o, bp),
                    Times(|params|, Popped(o)) + 2 + Popped(o), Lost(o, CallArgumentCount(params, hash, o, bp)), o)
    decreases owner, 0, 0
  {
    hide Balance, EmitParams, EmitHash, ArgumentsIn, ArgumentsInHash, PlainExprs, PlainHash;
    var n := Times(|params|, Popped(o));
    var l, k := Lost(o, ArgumentsIn(params, o, bp)), Lost(o, ArgumentsInHash(hash, o, bp));
    TimesPositive(|params|, Popped(o));
    ParamsBalance(h, d, params, o, bp);
    BalanceTwo(h + n, d, PushProgram(g), PushProgram(i), o);
    BalanceAppend(h, d, EmitParams(params, o, bp), n, l, [PushProgram(g), PushProgram(i)], 2, 0, o);
    HashBalance(h + n + 2, d, hash, omitEmpty, o, bp);
    BalanceAppend(h, d, EmitParams(params, o, bp) + [PushProgram(g), PushProgram(i)], n + 2, l,
                  EmitHash(hash, omitEmpty, o, bp), Popped(o), k, o);
  }

  lemma InvokeBalance(h: nat, d: nat, p: Path, n: nat, o: Options, bp: Scope)
    requires h >= Times(n, Popped(o)) + 2 + Popped(o)
    ensures Balance(h, d, EmitInvoke(p, n, o, bp), -Times(n, Popped(o)) - 1 - Popped(o), 0, o)
  {
    hide Balance, EmitPath;
    if Known(o, HeadName(p)) {
      BalanceOne(h, d, InvokeKnownHelper(n, HeadName(p)), o);
    } else {
      var op := InvokeHelper(n, p.original, SimpleId(p));
      PathBalance(h, d, p, true, true, o, bp);
      BalanceOne(h + 1, d, op, o);
      BalanceAppend(h, d, EmitPath(p, true, true, bp), 1, 0, [op], -Times(n, Popped(o)) - 2 - Popped(o), 0, o);
    }
  }

  lemma {:induction false} CallBalance(h: nat, d: nat, owner: Expr, p: Path, params: seq<Expr>, hash: Hash,
                                       g: Option<nat>, i: Option<nat>, o: Options, bp: Scope)
    requires PlainExprs(params) && PlainHash(hash)
    requires owner.SubExpression? && owner.params == params && owner.hash == hash
    ensures Balance(h, d, EmitParams(params, o, bp) + [PushProgram(g), PushProgram(i)] + EmitHash(hash, false, o, bp) +
                          EmitInvoke(p, |params|, o, bp), 1, Lost(o, CallArgumentCount(params, hash, o, bp)), o)
    decreases owner, 0, 1
  {
    hide Balance, EmitParams, EmitHash, EmitInvoke, CallArgumentCount, PlainExprs, PlainHash;
    var n := Times(|params|, Popped(o)) + 2 + Popped(o);
    TimesPositive(|params|, Popped(o));
    ArgumentsBalance(h, d, owner, params, hash, false, g, i, o, bp);
    InvokeBalance(h + n, d, p, |params|, o, bp);
    BalanceAppend(h, d, EmitParams(params, o, bp) + [PushProgram(g), PushProgram(i)] + EmitHash(hash, false, o, bp), n,
                  Lost(o, CallArgumentCount(params, hash, o, bp)), EmitInvoke(p, |params|, o, bp), 1 - n, 0, o);
  }

  // ---------- Statements ----------

  predicate KeysHeld(m: Statement) {
    match m
    case MustacheStatement(_, params, hash, _) => PlainExprs(params) && PlainHash(hash)
    case BlockStatement(_, params, hash, _, _) => PlainExprs(params) && PlainHash(hash)
    case PartialStatement(partial, params, hash, _, _) =>
      PlainExprs(params) && PlainHash(hash) && |params| <= 1 && (partial.Dynamic? ==> PlainExpr(partial.call))
    case Decorator(_, params, hash, _) => PlainExprs(params) && PlainHash(hash)
    case _ => true
  }

  /** The arguments the statement's own code passes. */
  function StatementArguments(m: Statement, o: Options, bp: Scope): nat {
    match m
    case MustacheStatement(p, params, hash, _) =>
      if ClassifySexpr(o, bp, p, HelperExpression(false, params, hash)).Helper? then
        CallArgumentCount(params, hash, o, bp) else 0
    case BlockStatement(p, params, hash, _, _) =>
      if ClassifySexpr(o, bp, p, HelperExpression(false, params, hash)).Helper? then
        CallArgumentCount(params, hash, o, bp) else 0
    case PartialStatement(partial, params, hash, _, _) =>
      CallArgumentCount(PartialParams(params, o), hash, o, bp) +
        (if partial.Dynamic? then Arguments(partial.call, o, bp) else 0)
    case Decorator(_, params, hash, _) => CallArgumentCount(params, hash, o, bp)
    case _ => 0
  }

  /** Under explicitPartialContext a partial without parameters pushes an undefined context alone, whatever else the
      mode pops. */
  function ContextLost(m: Statement, o: Options): nat {
    if m.PartialStatement? && m.params == [] && o.explicitPartialContext then Popped(o) - 1 else 0
  }

  function StatementLost(m: Statement, o: Options, bp: Scope): nat {
    Lost(o, StatementArguments(m, o, bp)) + ContextLost(m, o)
  }

  lemma AmbiguousBalance(h: nat, d: nat, p: Path, g: Option<nat>, i: Option<nat>, o: Options, bp: Scope)
    ensures Balance(h, d, EmitAmbiguous(p, g, i, bp), 1, 0, o)
  {
    hide Balance, EmitPath;
    BalanceOne(h, d, GetContext(p.depth), o);
    BalanceTwo(h, d, PushProgram(g), PushProgram(i), o);
    BalanceAppend(h, d, [GetContext(p.depth)], 0, 0, [PushProgram(g), PushProgram(i)], 2, 0, o);
    var head := [GetContext(p.depth), PushProgram(g), PushProgram(i)];
    assert [GetContext(p.depth)] + [PushProgram(g), PushProgram(i)] == head;
    PathBalance(h + 2, d, p, false, true, o, bp);
    BalanceAppend(h, d, head, 2, 0, EmitPath(p, false, true, bp), 1, 0, o);
    var op := InvokeAmbiguous(HeadName(p), g.Some? || i.Some?);
    BalanceOne(h + 3, d, op, o);
    BalanceAppend(h, d, head + EmitPath(p, false, true, bp), 3, 0, [op], -2, 0, o);
  }

  lemma BlockEndBalance(h: nat, d: nat, g: Option<nat>, i: Option<nat>, op: Opcode, o: Options)
    requires h >= 1 && (op.BlockValue? || op.AmbiguousBlockValue?)
    ensures Balance(h, d, [PushProgram(g), PushProgram(i), EmptyHash(false), op], 0, 0, o)
  {
    hide Balance;
    BalanceTwo(h, d, PushProgram(g), PushProgram(i), o);
    BalanceTwo(h + 2, d, EmptyHash(false), op, o);
    BalanceAppend(h, d, [PushProgram(g), PushProgram(i)], 2, 0, [EmptyHash(false), op], -2, 0, o);
    assert [PushProgram(g), PushProgram(i)] + [EmptyHash(false), op] ==
           [PushProgram(g), PushProgram(i), EmptyHash(false), op];
  }

  lemma MustacheBalance(h: nat, d: nat, p: Path, params: seq<Expr>, hash: Hash, o: Options, bp: Scope)
    requires PlainExprs(params) && PlainHash(hash)
    ensures Balance(h, d, EmitMustache(p, params, hash, o, bp), 1,
                    Lost(o, StatementArguments(MustacheStatement(p, params, hash, true), o, bp)), o)
  {
    hide Balance, EmitPath, ClassifySexpr, EmitAmbiguous, EmitParams, EmitHash, EmitInvoke, CallArgumentCount,
         PlainExprs, PlainHash;
    match ClassifySexpr(o, bp, p, HelperExpression(false, params, hash))
    case Simple => LambdaBalance(h, d, p, o, bp);
    case Ambiguous => AmbiguousBalance(h, d, p, None, None, o, bp);
    case Helper => CallBalance(h, d, SubExpression(p, params, hash), p, params, hash, None, None, o, bp);
  }

  lemma AppendBalance(h: nat, d: nat, ops: seq<Opcode>, lost: nat, op: Opcode, o: Options)
    requires Balance(h, d, ops, 1, lost, o) && (op.Append? || op.AppendEscaped?)
    ensures Balance(h, d, ops + [op], 0, lost, o)
  {
    hide Balance;
    BalanceOne(h + 1, d, op, o);
    BalanceAppend(h, d, ops, 1, lost, [op], -1, 0, o);
  }

  lemma BlockBalance(h: nat, d: nat, p: Path, params: seq<Expr>, hash: Hash, g: Option<nat>, i: Option<nat>, o: Options,
                     bp: Scope)
    requires PlainExprs(params) && PlainHash(hash)
    ensures Balance(h, d, EmitBlock(p, params, hash, g, i, o, bp), 0,
                    Lost(o, StatementArguments(MustacheStatement(p, params, hash, true), o, bp)), o)
  {
    hide Balance, EmitPath, ClassifySexpr, EmitAmbiguous, EmitParams, EmitHash, EmitInvoke, CallArgumentCount,
         PlainExprs, PlainHash;
    match ClassifySexpr(o, bp, p, HelperExpression(false, params, hash))
    case Helper =>
      CallBalance(h, d, SubExpression(p, params, hash), p, params, hash, g, i, o, bp);
      AppendBalance(h, d, EmitArguments(params, g, i, hash, false, o, bp) + EmitInvoke(p, |params|, o, bp),
                    Lost(o, CallArgumentCount(params, hash, o, bp)), Append, o);
    case Simple =>
      var rest := [PushProgram(g), PushProgram(i), EmptyHash(false), BlockValue(p.original)];
      LambdaBalance(h, d, p, o, bp);
      BlockEndBalance(h + 1, d, g, i, BlockValue(p.original), o);
      BalanceAppend(h, d, EmitPath(p, false, true, bp) + [ResolvePossibleLambda], 1, 0, rest, 0, 0, o);
      assert EmitPath(p, false, true, bp) + [ResolvePossibleLambda] + rest ==
             EmitPath(p, false, true, bp) + ([ResolvePossibleLambda] + rest);
      assert [ResolvePossibleLambda] + rest ==
        [ResolvePossibleLambda, PushProgram(g), PushProgram(i), EmptyHash(false), BlockValue(p.original)];
      AppendBalance(h, d, EmitPath(p, false, true, bp) + ([ResolvePossibleLambda] + rest), 0, Append, o);
    case Ambiguous =>
      var rest := [PushProgram(g), PushProgram(i), EmptyHash(false), AmbiguousBlockValue];
      AmbiguousBalance(h, d, p, g, i, o, bp);
      BlockEndBalance(h + 1, d, g, i, AmbiguousBlockValue, o);
      BalanceAppend(h, d, EmitAmbiguous(p, g, i, bp), 1, 0, rest, 0, 0, o);
      AppendBalance(h, d, EmitAmbiguous(p, g, i, bp) + rest, 0, Append, o);
  }

  lemma PartialHeadBalance(h: nat, d: nat, partial: PartialName, params: seq<Expr>, hash: Hash, g: Option<nat>,
                           o: Options, bp: Scope)
    requires PlainExprs(params) && PlainHash(hash) && |params| <= 1 && (partial.Dynamic? ==> PlainExpr(partial.call))
    ensures var m := PartialStatement(partial, params, hash, None, "");
            Balance(h, d, PartialHead(partial, params, hash, g, o, bp),
                    Popped(o) + 2 + Popped(o) + (if partial.Dynamic? then 1 else 0),
                    StatementLost(m, o, bp), o)
  {
    hide Balance, EmitParams, EmitHash, EmitExpr, Arguments, ArgumentsIn, ArgumentsInHash, PlainExpr, PlainHash;
    var m := PartialStatement(partial, params, hash, None, "");
    var explicit := params == [] && o.explicitPartialContext;
    var a := if explicit then [PushLiteral(Undefined)] else [];
    var b := if partial.Dynamic? then EmitExpr(partial.call, o, bp) else [];
    var ps := PartialParams(params, o);
    PartialParamsKeys(params, o);
    var x, y := if explicit then 1 else 0, if partial.Dynamic? then 1 else 0;
    var lb := if partial.Dynamic? then Lost(o, Arguments(partial.call, o, bp)) else 0;
    if explicit {
      BalanceOne(h, d, PushLiteral(Undefined), o);
    } else {
      BalanceNone(h, d, o);
    }
    if partial.Dynamic? {
      ExprBalance(h + x, d, partial.call, o, bp);
    } else {
      BalanceNone(h + x, d, o);
    }
    BalanceAppend(h, d, a, x, 0, b, y, lb, o);
    ArgumentsBalance(h + x + y, d, SubExpression(NOWHERE, ps, hash), ps, hash, true, g, None, o, bp);
    var n, l := Times(|ps|, Popped(o)) + 2 + Popped(o), Lost(o, CallArgumentCount(ps, hash, o, bp));
    BalanceAppend(h, d, a + b, x + y, lb, EmitArguments(ps, g, None, hash, true, o, bp), n, l, o);
    OneParam(params, o);
    BalanceWeaken(h, d, a + b + EmitArguments(ps, g, None, hash, true, o, bp), x + y + n, lb + l,
                  Popped(o) + 2 + Popped(o) + y, StatementLost(m, o, bp), o);
  }

  lemma OneParam(params: seq<Expr>, o: Options)
    requires |params| <= 1
    ensures Times(|PartialParams(params, o)|, Popped(o)) == if params == [] && o.explicitPartialContext then 0
            else Popped(o)
  {
    assert Times(1, Popped(o)) == Popped(o) + Times(0, Popped(o));
  }

  lemma PartialParamsKeys(params: seq<Expr>, o: Options)
    requires PlainExprs(params)
    ensures PlainExprs(PartialParams(params, o))
  {
  }

  lemma PartialBalance(h: nat, d: nat, partial: PartialName, params: seq<Expr>, hash: Hash, g: Option<nat>,
                       indent: string,
                       o: Options, bp: Scope)
    requires PlainExprs(params) && PlainHash(hash) && |params| <= 1 && (partial.Dynamic? ==> PlainExpr(partial.call))
    ensures Balance(h, d, EmitPartial(partial, params, hash, g, indent, o, bp), 0,
                    StatementLost(PartialStatement(partial, params, hash, None, ""), o, bp), o)
  {
    hide Balance, EmitArguments, EmitExpr, StatementLost, PlainExpr, PlainExprs, PlainHash;
    var m := PartialStatement(partial, params, hash, None, "");
    var head := PartialHead(partial, params, hash, g, o, bp);
    var n := Popped(o) + 2 + Popped(o) + if partial.Dynamic? then 1 else 0;
    var lost := StatementLost(m, o, bp);
    PartialHeadBalance(h, d, partial, params, hash, g, o, bp);
    var content := if o.preventIndent && indent != "" then [AppendContent(indent)] else [];
    if content != [] {
      BalanceOne(h + n, d, AppendContent(indent), o);
    } else {
      BalanceNone(h + n, d, o);
    }
    BalanceAppend(h, d, head, n, lost, content, 0, 0, o);
    var op := InvokePartial(partial.Dynamic?, CalleeName(partial), if o.preventIndent then "" else indent);
    BalanceOne(h + n, d, op, o);
    BalanceAppend(h, d, head + content, n, lost, [op], 1 - n, 0, o);
    AppendBalance(h, d, head + content + [op], lost, Append, o);
    assert head + content + [op] + [Append] == head + content + [op, Append];
  }

  lemma DecoratorBalance(h: nat, d: nat, p: Path, params: seq<Expr>, hash: Hash, g: Option<nat>, o: Options, bp: Scope)
    requires PlainExprs(params) && PlainHash(hash)
    ensures Balance(h, d, EmitArguments(params, g, None, hash, false, o, bp) +
                    [RegisterDecorator(|params|, p.original)], 0,
                    Lost(o, CallArgumentCount(params, hash, o, bp)), o)
  {
    hide Balance, EmitParams, EmitHash, CallArgumentCount, PlainExprs, PlainHash;
    var n := Times(|params|, Popped(o)) + 2 + Popped(o);
    TimesPositive(|params|, Popped(o));
    ArgumentsBalance(h, d, SubExpression(p, params, hash), params, hash, false, g, None, o, bp);
    BalanceOne(h + n, d, RegisterDecorator(|params|, p.original), o);
    BalanceAppend(h, d, EmitArguments(params, g, None, hash, false, o, bp), n,
                  Lost(o, CallArgumentCount(params, hash, o, bp)),
                  [RegisterDecorator(|params|, p.original)], -n, 0, o);
  }

  lemma StatementBalance(h: nat, d: nat, m: Statement, o: Options, bp: Scope, guid: nat)
    requires KeysHeld(m)
    ensures Balance(h, d, EmitStatement(m, o, bp, guid).opcodes, 0, StatementLost(m, o, bp), o)
  {
    hide Balance, EmitMustache, EmitBlock, EmitPartial, EmitArguments, PlainExprs, PlainHash, ClassifySexpr,
         CallArgumentCount;
    match m
    case MustacheStatement(p, params, hash, escaped) =>
      MustacheBalance(h, d, p, params, hash, o, bp);
      AppendBalance(h, d, EmitMustache(p, params, hash, o, bp), StatementLost(m, o, bp),
                    if escaped && !o.noEscape then AppendEscaped else Append, o);
    case BlockStatement(p, params, hash, program, inverse) =>
      BlockBalance(h, d, p, params, hash, Guid(program, guid), Guid(inverse, guid + if program.Some? then 1 else 0), o,
                   bp);
    case PartialStatement(partial, params, hash, program, indent) =>
      PartialBalance(h, d, partial, params, hash, Guid(program, guid), indent, o, bp);
    case Decorator(p, params, hash, program) =>
      DecoratorBalance(h, d, p, params, hash, Guid(program, guid), o, bp);
    case ContentStatement(content) =>
      if content == "" {
        BalanceNone(h, d, o);
      } else {
        BalanceOne(h, d, AppendContent(content), o);
      }
    case CommentStatement =>
      BalanceNone(h, d, o);
  }

  /** A statement compiles exactly when nothing is lost, in every mode; it then leaves the stacks as it found them. */
  lemma StatementCompilesIff(s: State, m: Statement, o: Options, bp: Scope, guid: nat)
    requires Clean(s) && KeysHeld(m)
    ensures var t := Run(s, EmitStatement(m, o, bp, guid).opcodes, o);
            (t.Some? <==> StatementLost(m, o, bp) == 0) && (t.Some? ==> Clean(t.value))
  {
    hide Run, EmitStatement, StatementLost;
    var ops := EmitStatement(m, o, bp, guid).opcodes;
    StatementBalance(0, 0, m, o, bp, guid);
    assert Sound(s) && Height(s) == 0 && HashDepth(s) == 0;
    if StatementLost(m, o, bp) == 0 {
      FineRuns(s, ops, o);
      EmptyIsClean(Run(s, ops, o).value);
    } else if Run(s, ops, o).Some? {
      RunMoves(s, ops, o);
      assert false;
    }
  }

  lemma EmptyIsClean(s: State)
    requires Sound(s) && Height(s) == 0 && HashDepth(s) == 0
    ensures Clean(s)
  {
  }

  /** With both stringParams and trackIds set, a statement compiles exactly when it passes no argument and is no
      partial. */
  lemma BothModesCompileIff(s: State, m: Statement, o: Options, bp: Scope, guid: nat)
    requires Clean(s) && KeysHeld(m) && o.stringParams && o.trackIds
    ensures Run(s, EmitStatement(m, o, bp, guid).opcodes, o).Some? <==>
            StatementArguments(m, o, bp) == 0 && !m.PartialStatement?
  {
    hide Run, EmitStatement, Arguments, ArgumentsInHash;
    StatementCompilesIff(s, m, o, bp, guid);
    if m.PartialStatement? && !(m.params == [] && o.explicitPartialContext) {
      assert ArgumentsIn(PartialParams(m.params, o), o, bp) >= 1;
    }
  }

  /** In one mode only an explicit partial context can lose anything, and does so when ids or types are popped with
      it. */
  lemma OneModeCompilesIff(s: State, m: Statement, o: Options, bp: Scope, guid: nat)
    requires Clean(s) && KeysHeld(m) && OneMode(o)
    ensures Run(s, EmitStatement(m, o, bp, guid).opcodes, o).Some? <==>
            !(m.PartialStatement? && m.params == [] && o.explicitPartialContext && (o.stringParams || o.trackIds))
  {
    hide Run, EmitStatement, StatementArguments;
    StatementCompilesIff(s, m, o, bp, guid);
  }
}
