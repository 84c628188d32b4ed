/** Stack accounting for any opcode sequence: how each opcode moves the height of
    the stacks, which statements balance, and what happens when they do not. */
module HandlebarsHeights {
  import opened Wrappers
  import opened HandlebarsCompiler
  import opened HandlebarsCodegen
  import opened HandlebarsSemantics
  import opened HandlebarsCorrect
  import opened HandlebarsOutput

  function Height(s: State): nat { |s.inlineStack| + |s.compileStack| }

  /** The entries popped for one argument; Width is how many are pushed. */
  function Popped(o: Options): int { 1 + (if o.trackIds then 1 else 0) + (if o.stringParams then 2 else 0) }

  function Times(n: nat, k: int): int { if n == 0 then 0 else k + Times(n - 1, k) }

  /** How an opcode changes the height. */
  function Delta(op: Opcode, o: Options): int {
    match op
    case GetContext(_) => 0
    case PushStringParam(_, typ) => if typ == "SubExpression" then 2 else 3
    case EmptyHash(_) => Popped(o)
    case PushHash => 0
    case AssignToHash(_) => -Popped(o)
    case PopHash => Popped(o)
    case ResolvePossibleLambda => 0
    case InvokeKnownHelper(n, _) => -Popped(o) - 2 - Times(n, Popped(o)) + 1
    case InvokeHelper(n, _, _) => -Popped(o) - 2 - Times(n, Popped(o))
    case InvokeAmbiguous(_, _) => -2
    case InvokePartial(isDynamic, _, _) => -Popped(o) - 2 - Popped(o) + if isDynamic then 0 else 1
    case RegisterDecorator(n, _) => -Popped(o) - 2 - Times(n, Popped(o))
    case BlockValue(_) => -Popped(o) - 2
    case AmbiguousBlockValue => -Popped(o) - 2
    case Append => -1
    case AppendEscaped => -1
    case AppendContent(_) => 0
    case _ => 1
  }

  function DeltaAll(ops: seq<Opcode>, o: Options): int {
    if ops == [] then 0 else Delta(ops[0], o) + DeltaAll(ops[1..], o)
  }

  lemma PopHeight(s: State, used: bool)
    ensures PopOptional(s, used).Some? ==> Height(PopOptional(s, used).value.1) == Height(s) - if used then 1 else 0
  {
  }

  lemma PopArgHeight(s: State, o: Options)
    ensures PopArg(s, o).Some? ==> Height(PopArg(s, o).value.1) == Height(s) - Popped(o)
  {
    hide PopOptional;
    var p := PopOptional(s, true);
    PopHeight(s, true);
    if p.Some? {
      PopHeight(p.value.1, o.trackIds);
      var id := PopOptional(p.value.1, o.trackIds);
      if id.Some? {
        PopHeight(id.value.1, o.stringParams);
        var typ := PopOptional(id.value.1, o.stringParams);
        if typ.Some? {
          PopHeight(typ.value.1, o.stringParams);
        }
      }
    }
  }

  lemma {:induction false} PopArgsHeight(s: State, n: nat, o: Options)
    ensures PopArgs(s, n, o).Some? ==> Height(PopArgs(s, n, o).value.1) == Height(s) - Times(n, Popped(o))
    decreases n
  {
    hide PopArg;
    if n > 0 {
      PopArgHeight(s, o);
      if PopArg(s, o).Some? {
        PopArgsHeight(PopArg(s, o).value.1, n - 1, o);
      }
    }
  }

  lemma SetupHeight(s: State, name: string, n: nat, o: Options)
    ensures SetupParams(s, name, n, o).Some? ==>
              Height(SetupParams(s, name, n, o).value.rest) == Height(s) - Popped(o) - 2 - Times(n, Popped(o))
    ensures SetupParams(s, name, n, o).Some? ==> SetupParams(s, name, n, o).value.rest.lastHelper == s.lastHelper
  {
    hide PopArg, PopArgs, PopOptional, OrNoop, Picked;
    var h := PopArg(s, o);
    PopArgHeight(s, o);
    PopArgKeeps(s, o);
    if h.Some? {
      var inverse := PopOptional(h.value.1, true);
      PopHeight(h.value.1, true);
      PopKeeps(h.value.1, true);
      if inverse.Some? {
        var program := PopOptional(inverse.value.1, true);
        PopHeight(inverse.value.1, true);
        PopKeeps(inverse.value.1, true);
        if program.Some? {
          PopArgsHeight(program.value.1, n, o);
          PopArgsKeeps(program.value.1, n, o);
        }
      }
    }
  }

  // ---------- Only the stacks change when entries are popped ----------

  predicate SameRest(s: State, t: State) {
    t == s.(inlineStack := t.inlineStack, compileStack := t.compileStack, stackSlot := t.stackSlot)
  }

  lemma PopKeeps(s: State, used: bool)
    ensures PopOptional(s, used).Some? ==> SameRest(s, PopOptional(s, used).value.1)
    ensures PopOptional(s, used).Some? && SlotsMatch(s) ==> SlotsMatch(PopOptional(s, used).value.1)
  {
    if used && s.inlineStack == [] && s.compileStack != [] {
      var n := |s.compileStack| - 1;
      assert s.compileStack == s.compileStack[..n] + [s.compileStack[n]];
      VariablesAppend(s.compileStack[..n], s.compileStack[n]);
    }
  }

  lemma PopArgKeeps(s: State, o: Options)
    ensures PopArg(s, o).Some? ==> SameRest(s, PopArg(s, o).value.1)
    ensures PopArg(s, o).Some? && SlotsMatch(s) ==> SlotsMatch(PopArg(s, o).value.1)
  {
    hide PopOptional, SlotsMatch;
    var p := PopOptional(s, true);
    PopKeeps(s, true);
    if p.Some? {
      PopKeeps(p.value.1, o.trackIds);
      var id := PopOptional(p.value.1, o.trackIds);
      if id.Some? {
        PopKeeps(id.value.1, o.stringParams);
        var typ := PopOptional(id.value.1, o.stringParams);
        if typ.Some? {
          PopKeeps(typ.value.1, o.stringParams);
        }
      }
    }
  }

  lemma {:induction false} PopArgsKeeps(s: State, n: nat, o: Options)
    ensures PopArgs(s, n, o).Some? ==> SameRest(s, PopArgs(s, n, o).value.1)
    ensures PopArgs(s, n, o).Some? && SlotsMatch(s) ==> SlotsMatch(PopArgs(s, n, o).value.1)
    decreases n
  {
    hide PopArg, SlotsMatch;
    if n > 0 {
      PopArgKeeps(s, o);
      if PopArg(s, o).Some? {
        PopArgsKeeps(PopArg(s, o).value.1, n - 1, o);
      }
    }
  }

  // ---------- stackSlot counts the variables on the compile stack ----------

  function Variables(xs: seq<Slot>): nat {
    if xs == [] then 0 else Variables(xs[..|xs| - 1]) + if xs[|xs| - 1].Inline? then 1 else 0
  }

  lemma VariablesAppend(xs: seq<Slot>, x: Slot)
    ensures Variables(xs + [x]) == Variables(xs) + if x.Inline? then 1 else 0
  {
    assert (xs + [x])[..|xs|] == xs;
  }

  predicate SlotsMatch(s: State) { s.stackSlot == Variables(s.compileStack) }

  lemma SetupSlots(s: State, name: string, n: nat, o: Options)
    requires SlotsMatch(s)
    ensures SetupParams(s, name, n, o).Some? ==> SlotsMatch(SetupParams(s, name, n, o).value.rest)
  {
    hide PopArg, PopArgs, PopOptional, OrNoop, Picked, SlotsMatch;
    var h := PopArg(s, o);
    PopArgKeeps(s, o);
    if h.Some? {
      var inverse := PopOptional(h.value.1, true);
      PopKeeps(h.value.1, true);
      if inverse.Some? {
        var program := PopOptional(inverse.value.1, true);
        PopKeeps(inverse.value.1, true);
        if program.Some? {
          PopArgsKeeps(program.value.1, n, o);
        }
      }
    }
  }

  lemma ReplaceKeeps(s: State, w: Wrapper)
    ensures ReplaceStack(s, w).Some? ==>
              Height(ReplaceStack(s, w).value) == Height(s) &&
              ReplaceStack(s, w).value.compileStack == s.compileStack &&
              ReplaceStack(s, w).value.stackSlot == s.stackSlot && ReplaceStack(s, w).value.inlineStack != []
  {
  }

  lemma {:induction false} ResolveKeeps(s: State, parts: seq<string>, falsy: bool)
    ensures ResolvePath(s, parts, falsy).Some? ==>
              Height(ResolvePath(s, parts, falsy).value) == Height(s) &&
              ResolvePath(s, parts, falsy).value.compileStack == s.compileStack &&
              ResolvePath(s, parts, falsy).value.stackSlot == s.stackSlot
    decreases |parts|
  {
    hide ReplaceStack;
    if parts != [] {
      var w := if falsy then AndMember(parts[0]) else NotNullMember(parts[0]);
      ReplaceKeeps(s, w);
      if ReplaceStack(s, w).Some? {
        ResolveKeeps(ReplaceStack(s, w).value, parts[1..], falsy);
      }
    }
  }

  lemma {:induction false} FlushKeeps(s: State, entries: seq<Slot>)
    ensures var t := FlushEntries(s, entries);
            t.inlineStack == s.inlineStack && |t.compileStack| == |s.compileStack| + |entries| &&
              (SlotsMatch(s) ==> SlotsMatch(t))
    decreases |entries|
  {
    if entries != [] {
      if entries[0].Lit? {
        VariablesAppend(s.compileStack, entries[0]);
        FlushKeeps(s.(compileStack := s.compileStack + [entries[0]]), entries[1..]);
      } else {
        var t := IncrStack(s);
        var u := PushSource(t, [SetTmp(t.stackSlot, entries[0].code)]);
        VariablesAppend(s.compileStack, Inline(Tmp(t.stackSlot)));
        FlushKeeps(u.(compileStack := u.compileStack + [Inline(Tmp(t.stackSlot))]), entries[1..]);
      }
    }
  }

  /** What an opcode does to the height and the slot counter, whatever the state. */
  ghost predicate Moves(s: State, t: Option<State>, d: int) {
    t.Some? ==> Height(t.value) == Height(s) + d && (SlotsMatch(s) ==> SlotsMatch(t.value))
  }

  lemma StepInvoke(s: State, op: Opcode, o: Options)
    requires op.InvokeKnownHelper? || op.InvokeHelper? || op.RegisterDecorator?
    ensures Moves(s, InvokeStep(s, op, o), Delta(op, o))
  {
    hide SetupParams, PopStack, SlotsMatch, Picked;
    PopKeeps(s, true);
    PopHeight(s, true);
    PopIsPop(s);
    var (name, n, s1) := match op
      case InvokeKnownHelper(n, name) => (name, n, s)
      case InvokeHelper(n, name, _) => (name, n, if PopStack(s).Some? then PopStack(s).value.1 else s)
      case RegisterDecorator(n, name) => (name, n, s);
    SetupHeight(s1, name, n, o);
    if SlotsMatch(s1) {
      SetupSlots(s1, name, n, o);
    }
    var u := SetupParams(s1, name, n, o);
    if u.Some? {
      PushMoves(u.value.rest);
      SlotsOnly(u.value.rest);
    }
  }

  lemma StepPartial(s: State, op: Opcode, o: Options)
    requires op.InvokePartial?
    ensures Moves(s, InvokeStep(s, op, o), Delta(op, o))
  {
    hide SetupParams, PopOptional, SlotsMatch;
    SetupHeight(s, op.name, 1, o);
    if SlotsMatch(s) {
      SetupSlots(s, op.name, 1, o);
    }
    var u := SetupParams(s, op.name, 1, o);
    if u.Some? {
      assert Times(1, Popped(o)) == Popped(o) by {
        assert Times(0, Popped(o)) == 0;
      }
      PopHeight(u.value.rest, op.isDynamic);
      PopKeeps(u.value.rest, op.isDynamic);
      if PopOptional(u.value.rest, op.isDynamic).Some? {
        var rest := PopOptional(u.value.rest, op.isDynamic).value.1;
        PushMoves(rest);
        var t := InvokeStep(s, op, o).value;
        assert t == Push(rest, t.inlineStack[|t.inlineStack| - 1]);
      }
    }
  }

  lemma PopIsPop(s: State)
    ensures PopOptional(s, true) == if PopStack(s).None? then None
            else Some((PopStack(s).value.0.code, PopStack(s).value.1))
  {
  }

  lemma PushMoves(s: State)
    ensures forall x :: Height(Push(s, x)) == Height(s) + 1 && (SlotsMatch(s) ==> SlotsMatch(Push(s, x)))
  {
  }

  lemma SlotsOnly(s: State)
    ensures forall d :: Height(s.(decorators := d)) == Height(s) && (SlotsMatch(s) ==> SlotsMatch(s.(decorators := d)))
    ensures forall h :: Height(s.(lastHelper := h)) == Height(s) && (SlotsMatch(s) ==> SlotsMatch(s.(lastHelper := h)))
    ensures forall l :: Height(PushSource(s, l)) == Height(s) && (SlotsMatch(s) ==> SlotsMatch(PushSource(s, l)))
  {
  }

  lemma StepAmbiguous(s: State, op: Opcode, o: Options)
    requires op.InvokeAmbiguous?
    ensures Moves(s, InvokeStep(s, op, o), Delta(op, o))
  {
    hide SetupParams, PopStack, SlotsMatch, Picked;
    PopKeeps(s, true);
    PopHeight(s, true);
    PopIsPop(s);
    if PopStack(s).Some? {
      var s1 := EmptyHashStep(PopStack(s).value.1, false, o);
      EmptyMoves(PopStack(s).value.1, false, o);
      SetupHeight(s1, op.name, 0, o);
      if SlotsMatch(s1) {
        SetupSlots(s1, op.name, 0, o);
      }
      var u := SetupParams(s1, op.name, 0, o);
      if u.Some? {
        var s2 := u.value.rest.(lastHelper := Some(op.name));
        SlotsOnly(u.value.rest);
        PushMoves(s2);
      }
    }
  }

  lemma EmptyMoves(s: State, omit: bool, o: Options)
    ensures Height(EmptyHashStep(s, omit, o)) == Height(s) + Popped(o)
    ensures SlotsMatch(s) ==> SlotsMatch(EmptyHashStep(s, omit, o))
  {
  }

  lemma StepBlock(s: State, op: Opcode, o: Options)
    requires op.BlockValue? || op.AmbiguousBlockValue?
    ensures Moves(s, BlockStep(s, op, o), Delta(op, o))
  {
    hide SetupParams, PopStack, SlotsMatch, FlushEntries;
    var name := if op.BlockValue? then op.name else "";
    SetupHeight(s, name, 0, o);
    if SlotsMatch(s) {
      SetupSlots(s, name, 0, o);
    }
    var u := SetupParams(s, name, 0, o);
    if u.Some? {
      var rest := u.value.rest;
      if op.BlockValue? {
        PopKeeps(rest, true);
        PopHeight(rest, true);
        PopIsPop(rest);
        if PopStack(rest).Some? {
          PushMoves(PopStack(rest).value.1);
        }
      } else {
        FlushKeeps(rest.(inlineStack := []), rest.inlineStack);
        SlotsFrame(rest, rest.(inlineStack := []));
        SlotsOnly(FlushInline(rest));
      }
    }
  }

  lemma SlotsFrame(s: State, t: State)
    requires s.compileStack == t.compileStack && s.stackSlot == t.stackSlot
    ensures SlotsMatch(s) == SlotsMatch(t)
  {
  }

  lemma StepAppend(s: State, op: Opcode, o: Options)
    requires op.Append? || op.AppendEscaped?
    ensures Moves(s, Step(s, op, o), Delta(op, o))
  {
    hide PopStack, SlotsMatch;
    var s1 := if op.Append? && s.inlineStack != [] then ReplaceStack(s, OrEmpty).value else s;
    if op.Append? && s.inlineStack != [] {
      ReplaceKeeps(s, OrEmpty);
      SlotsFrame(s, s1);
    }
    PopKeeps(s1, true);
    PopHeight(s1, true);
    PopIsPop(s1);
    if PopStack(s1).Some? {
      SlotsOnly(PopStack(s1).value.1);
    }
  }

  lemma StepHash(s: State, op: Opcode, o: Options)
    requires op.EmptyHash? || op.PushHash? || op.AssignToHash? || op.PopHash?
    ensures Moves(s, Step(s, op, o), Delta(op, o))
  {
    hide PopArg, SlotsMatch, SetKey;
    if op.EmptyHash? {
      EmptyMoves(s, op.omitEmpty, o);
    } else if op.AssignToHash? {
      PopArgHeight(s, o);
      PopArgKeeps(s, o);
      if Step(s, op, o).Some? {
        SlotsFrame(PopArg(s, o).value.1, Step(s, op, o).value);
      }
    } else if Step(s, op, o).Some? {
      SlotsFrame(s, Step(s, op, o).value);
    }
  }

  lemma StepPush(s: State, op: Opcode, o: Options)
    requires op.LookupBlockParam? || op.LookupData? || op.LookupOnContext? || op.ResolvePossibleLambda?
    ensures Moves(s, Step(s, op, o), Delta(op, o))
  {
    hide ResolvePath, SlotsMatch, PopStack;
    PopKeeps(s, true);
    PopHeight(s, true);
    PopIsPop(s);
    if op.ResolvePossibleLambda? {
      if PopStack(s).Some? {
        PushMoves(PopStack(s).value.1);
      }
    } else {
      var (slot, parts, falsy) := match op
        case LookupBlockParam(d, i, parts) => (Inline(Atomic(BlockParam(d, i))), if parts == [] then []
                                               else parts[1..], false)
        case LookupData(d, parts, _) => (Lit(Atomic(Data(d))), parts, true)
        case LookupOnContext(parts, falsy, _, _) => (Lit(Atomic(Context(s.lastContext))), parts, falsy);
      PushMoves(s);
      ResolveKeeps(Push(s, slot), parts, falsy);
      if ResolvePath(Push(s, slot), parts, falsy).Some? {
        SlotsFrame(Push(s, slot), ResolvePath(Push(s, slot), parts, falsy).value);
      }
    }
  }

  lemma StepSimple(s: State, op: Opcode, o: Options)
    requires op.GetContext? || op.PushContext? || op.PushString? || op.PushLiteral? || op.PushStringParam? ||
             op.PushId? ||
             op.PushProgram? || op.AppendContent?
    ensures Moves(s, Step(s, op, o), Delta(op, o))
  {
  }

  /** Every opcode moves the height by its Delta or throws, and keeps stackSlot equal to the number of
      variables on the compile stack. */
  lemma StepMoves(s: State, op: Opcode, o: Options)
    ensures Moves(s, Step(s, op, o), Delta(op, o))
  {
    hide Moves, SlotsMatch, Delta;
    match op
    case InvokeAmbiguous(_, _) => StepAmbiguous(s, op, o);
    case InvokeKnownHelper(_, _) => StepInvoke(s, op, o);
    case InvokeHelper(_, _, _) => StepInvoke(s, op, o);
    case InvokePartial(_, _, _) => StepPartial(s, op, o);
    case RegisterDecorator(_, _) => StepInvoke(s, op, o);
    case BlockValue(_) => StepBlock(s, op, o);
    case AmbiguousBlockValue => StepBlock(s, op, o);
    case Append => StepAppend(s, op, o);
    case AppendEscaped => StepAppend(s, op, o);
    case EmptyHash(_) => StepHash(s, op, o);
    case PushHash => StepHash(s, op, o);
    case AssignToHash(_) => StepHash(s, op, o);
    case PopHash => StepHash(s, op, o);
    case LookupBlockParam(_, _, _) => StepPush(s, op, o);
    case LookupData(_, _, _) => StepPush(s, op, o);
    case LookupOnContext(_, _, _, _) => StepPush(s, op, o);
    case ResolvePossibleLambda => StepPush(s, op, o);
    case _ => StepSimple(s, op, o);
  }

  /** Over a whole run, of any opcodes from any state. */
  lemma {:induction false} RunMoves(s: State, ops: seq<Opcode>, o: Options)
    requires SlotsMatch(s) && Run(s, ops, o).Some?
    ensures Height(Run(s, ops, o).value) == Height(s) + DeltaAll(ops, o) && SlotsMatch(Run(s, ops, o).value)
    decreases |ops|
  {
    hide Step, Delta, SlotsMatch, Height;
    if ops != [] {
      StepMoves(s, ops[0], o);
      RunMoves(Step(s, ops[0], o).value, ops[1..], o);
    }
  }

  // ---------- An opcode throws exactly when the stacks hold too little ----------

  /** The entries an opcode must find. */
  function Need(op: Opcode, o: Options): int {
    match op
    case AssignToHash(_) => Popped(o)
    case ResolvePossibleLambda => 1
    case InvokeKnownHelper(n, _) => Popped(o) + 2 + Times(n, Popped(o))
    case InvokeHelper(n, _, _) => Popped(o) + 3 + Times(n, Popped(o))
    case InvokeAmbiguous(_, _) => 3
    case InvokePartial(isDynamic, _, _) => Popped(o) + 2 + Popped(o) + if isDynamic then 1 else 0
    case RegisterDecorator(n, _) => Popped(o) + 2 + Times(n, Popped(o))
    case BlockValue(_) => Popped(o) + 3
    case AmbiguousBlockValue => Popped(o) + 3
    case Append => 1
    case AppendEscaped => 1
    case _ => 0
  }

  lemma PopSome(s: State, used: bool)
    requires SlotsMatch(s)
    ensures PopOptional(s, used).Some? <==> (used ==> Height(s) >= 1)
  {
    if used && s.inlineStack == [] && s.compileStack != [] {
      var n := |s.compileStack| - 1;
      assert s.compileStack == s.compileStack[..n] + [s.compileStack[n]];
      VariablesAppend(s.compileStack[..n], s.compileStack[n]);
    }
  }

  lemma PopArgSome(s: State, o: Options)
    requires SlotsMatch(s)
    ensures PopArg(s, o).Some? <==> Height(s) >= Popped(o)
  {
    hide PopOptional, SlotsMatch;
    var p := PopOptional(s, true);
    PopSome(s, true);
    PopHeight(s, true);
    PopKeeps(s, true);
    if p.Some? {
      PopSome(p.value.1, o.trackIds);
      PopHeight(p.value.1, o.trackIds);
      PopKeeps(p.value.1, o.trackIds);
      var id := PopOptional(p.value.1, o.trackIds);
      if id.Some? {
        PopSome(id.value.1, o.stringParams);
        PopHeight(id.value.1, o.stringParams);
        PopKeeps(id.value.1, o.stringParams);
        var typ := PopOptional(id.value.1, o.stringParams);
        if typ.Some? {
          PopSome(typ.value.1, o.stringParams);
        }
      }
    }
  }

  lemma {:induction false} TimesPositive(n: nat, k: int)
    requires k >= 0
    ensures Times(n, k) >= 0
  {
    if n > 0 {
      TimesPositive(n - 1, k);
    }
  }

  lemma {:induction false} PopArgsSome(s: State, n: nat, o: Options)
    requires SlotsMatch(s)
    ensures PopArgs(s, n, o).Some? <==> Height(s) >= Times(n, Popped(o))
    decreases n
  {
    hide PopArg, SlotsMatch;
    if n > 0 {
      TimesPositive(n - 1, Popped(o));
      PopArgSome(s, o);
      PopArgHeight(s, o);
      PopArgKeeps(s, o);
      if PopArg(s, o).Some? {
        PopArgsSome(PopArg(s, o).value.1, n - 1, o);
      }
    }
  }

  lemma SetupSome(s: State, name: string, n: nat, o: Options)
    requires SlotsMatch(s)
    ensures SetupParams(s, name, n, o).Some? <==> Height(s) >= Popped(o) + 2 + Times(n, Popped(o))
  {
    hide PopArg, PopArgs, PopOptional, OrNoop, Picked, SlotsMatch;
    TimesPositive(n, Popped(o));
    var h := PopArg(s, o);
    PopArgSome(s, o);
    PopArgHeight(s, o);
    PopArgKeeps(s, o);
    if h.Some? {
      var inverse := PopOptional(h.value.1, true);
      PopSome(h.value.1, true);
      PopHeight(h.value.1, true);
      PopKeeps(h.value.1, true);
      if inverse.Some? {
        var program := PopOptional(inverse.value.1, true);
        PopSome(inverse.value.1, true);
        PopHeight(inverse.value.1, true);
        PopKeeps(inverse.value.1, true);
        if program.Some? {
          PopArgsSome(program.value.1, n, o);
        }
      }
    }
  }

  lemma {:induction false} ResolveSome(s: State, parts: seq<string>, falsy: bool)
    requires s.inlineStack != []
    ensures ResolvePath(s, parts, falsy).Some?
    decreases |parts|
  {
    if parts != [] {
      var w := if falsy then AndMember(parts[0]) else NotNullMember(parts[0]);
      ReplaceKeeps(s, w);
      ResolveSome(ReplaceStack(s, w).value, parts[1..], falsy);
    }
  }

  lemma InvokeSome(s: State, op: Opcode, o: Options)
    requires SlotsMatch(s)
    requires op.InvokeKnownHelper? || op.InvokeHelper? || op.InvokeAmbiguous? || op.RegisterDecorator?
    ensures InvokeStep(s, op, o).Some? <==> Height(s) >= Need(op, o)
  {
    hide SetupParams, PopStack, SlotsMatch, Picked;
    PopSome(s, true);
    PopKeeps(s, true);
    PopHeight(s, true);
    PopIsPop(s);
    var s1 := if (op.InvokeHelper? || op.InvokeAmbiguous?) && PopStack(s).Some? then PopStack(s).value.1 else s;
    EmptyMoves(s1, false, o);
    var s2 := if op.InvokeAmbiguous? then EmptyHashStep(s1, false, o) else s1;
    var n := if op.InvokeAmbiguous? then 0 else op.paramSize;
    TimesPositive(n, Popped(o));
    SetupSome(s2, op.name, n, o);
  }

  lemma PartialSome(s: State, op: Opcode, o: Options)
    requires SlotsMatch(s) && op.InvokePartial?
    ensures InvokeStep(s, op, o).Some? <==> Height(s) >= Need(op, o)
  {
    hide SetupParams, PopOptional, SlotsMatch;
    assert Times(1, Popped(o)) == Popped(o) by {
      assert Times(0, Popped(o)) == 0;
    }
    SetupSome(s, op.name, 1, o);
    SetupHeight(s, op.name, 1, o);
    SetupSlots(s, op.name, 1, o);
    var u := SetupParams(s, op.name, 1, o);
    if u.Some? {
      PopSome(u.value.rest, op.isDynamic);
    }
  }

  lemma BlockSome(s: State, op: Opcode, o: Options)
    requires SlotsMatch(s) && (op.BlockValue? || op.AmbiguousBlockValue?)
    ensures BlockStep(s, op, o).Some? <==> Height(s) >= Need(op, o)
  {
    hide SetupParams, PopStack, SlotsMatch, FlushEntries;
    var name := if op.BlockValue? then op.name else "";
    SetupSome(s, name, 0, o);
    SetupHeight(s, name, 0, o);
    SetupSlots(s, name, 0, o);
    var u := SetupParams(s, name, 0, o);
    if u.Some? {
      PopSome(u.value.rest, true);
      PopIsPop(u.value.rest);
      FlushKeeps(u.value.rest.(inlineStack := []), u.value.rest.inlineStack);
    }
  }

  lemma AppendSome(s: State, op: Opcode, o: Options)
    requires SlotsMatch(s) && (op.Append? || op.AppendEscaped?)
    ensures Step(s, op, o).Some? <==> Height(s) >= 1
  {
    hide PopStack, SlotsMatch;
    var s1 := if op.Append? && s.inlineStack != [] then ReplaceStack(s, OrEmpty).value else s;
    if op.Append? && s.inlineStack != [] {
      ReplaceKeeps(s, OrEmpty);
      SlotsFrame(s, s1);
    }
    PopSome(s1, true);
    PopIsPop(s1);
  }

  predicate Listed(h: HashState) { Listable(h.values) && Listable(h.ids) && Listable(h.types) && Listable(h.contexts) }

  /** The current hash an opcode works on exists and can be listed, and the key can be assigned. */
  predicate HashReady(s: State, op: Opcode) {
    && (op.PopHash? || op.AssignToHash? ==> s.hash.Some?)
    && (op.PopHash? ==> Listed(s.hash.value))
    && (op.AssignToHash? ==> PlainKey(op.key))
  }

  lemma StepSome(s: State, op: Opcode, o: Options)
    requires SlotsMatch(s) && HashReady(s, op)
    ensures Step(s, op, o).Some? <==> Height(s) >= Need(op, o)
  {
    hide SlotsMatch, InvokeStep, BlockStep, PopArg, PopStack, ResolvePath, PutEntry;
    if op.InvokePartial? {
      PartialSome(s, op, o);
    } else if op.InvokeKnownHelper? || op.InvokeHelper? || op.InvokeAmbiguous? || op.RegisterDecorator? {
      InvokeSome(s, op, o);
    } else if op.BlockValue? || op.AmbiguousBlockValue? {
      BlockSome(s, op, o);
    } else if op.Append? || op.AppendEscaped? {
      AppendSome(s, op, o);
    } else if op.AssignToHash? {
      PopArgSome(s, o);
    } else if op.ResolvePossibleLambda? {
      PopSome(s, true);
      PopIsPop(s);
    } else if op.LookupBlockParam? {
      ResolveSome(Push(s, Inline(Atomic(BlockParam(op.depth, op.index)))), if op.parts == [] then []
                  else op.parts[1..], false);
    } else if op.LookupData? {
      ResolveSome(Push(s, Lit(Atomic(Data(op.depth)))), op.parts, true);
    } else if op.LookupOnContext? {
      ResolveSome(Push(s, Lit(Atomic(Context(s.lastContext)))), op.parts, op.falsy);
    }
  }
}
