/** The JavaScriptCompiler object: the stacks, the current hash, the source lines and the
    registers are fields that the opcodes update. Each method is proved to do what the
    step functions of HandlebarsCodegen say; not ok stands for a thrown exception. */
module HandlebarsMachine {
  import opened Wrappers
  import opened HandlebarsCompiler
  import G = HandlebarsCodegen
  import opened HandlebarsOutput
  import Heights = HandlebarsHeights
  import Balance = HandlebarsBalance

  const NOTHING := G.Atomic(G.Absent)

  class JavaScriptCompiler {
    const options: Options
    var inlineStack: seq<G.Slot>
    var compileStack: seq<G.Slot>
    var stackSlot: nat
    var stackVars: nat
    var lastContext: nat
    var hash: Option<G.HashState>
    var hashes: seq<G.HashState>
    var lines: seq<G.Line>
    var pendingContent: string
    var lastHelper: Option<string>
    var decorators: seq<G.Code>

    ghost function Now(): G.State
      reads this
    {
      G.State(inlineStack, compileStack, stackSlot, stackVars, lastContext, hash, hashes, lines, pendingContent,
              lastHelper, decorators)
    }

    constructor (options: Options)
      ensures this.options == options && Now() == G.INITIAL
    {
      this.options := options;
      inlineStack, compileStack, stackSlot, stackVars, lastContext := [], [], 0, 0, 0;
      hash, hashes, lines, pendingContent, lastHelper, decorators := None, [], [], "", None, [];
    }

    // ---------- The stacks ----------

    method Push(x: G.Slot)
      modifies this
      ensures Now() == G.Push(old(Now()), x)
    {
      inlineStack := inlineStack + [x];
    }

    method PushStackLiteral(code: G.Code)
      modifies this
      ensures Now() == G.Push(old(Now()), G.Lit(code))
    {
      Push(G.Lit(code));
    }

    method PopStack() returns (ok: bool, item: G.Slot)
      modifies this
      ensures ok <==> G.PopStack(old(Now())).Some?
      ensures ok ==> G.PopStack(old(Now())) == Some((item, Now()))
    {
      ok, item := true, G.Lit(NOTHING);
      var inline := inlineStack != [];
      if inline {
        item := inlineStack[|inlineStack| - 1];
        inlineStack := inlineStack[..|inlineStack| - 1];
      } else if compileStack == [] {
        ok := false;
      } else {
        item := compileStack[|compileStack| - 1];
        compileStack := compileStack[..|compileStack| - 1];
      }
      if ok && item.Inline? && !inline {
        if stackSlot == 0 {
          return false, item;
        }
        stackSlot := stackSlot - 1;
      }
    }

    method TopStack() returns (ok: bool, code: G.Code)
      ensures ok <==> G.TopStack(Now()).Some?
      ensures ok ==> G.TopStack(Now()) == Some(code)
    {
      var stack := if inlineStack != [] then inlineStack else compileStack;
      if stack == [] {
        return false, NOTHING;
      }
      return true, stack[|stack| - 1].code;
    }

    method IncrStack() returns (name: nat)
      modifies this
      ensures Now() == G.IncrStack(old(Now())) && name == stackSlot
    {
      stackSlot := stackSlot + 1;
      if stackSlot > stackVars {
        stackVars := stackVars + 1;
      }
      name := stackSlot;
    }

    /** The new variable is pushed for the callback and popped off again; what stays is the wrapped value. */
    method ReplaceStack(w: G.Wrapper) returns (ok: bool)
      modifies this
      ensures ok <==> G.ReplaceStack(old(Now()), w).Some?
      ensures ok ==> G.ReplaceStack(old(Now()), w) == Some(Now())
    {
      if inlineStack == [] {
        return false;
      }
      var popped, top := PopStack();
      if top.Lit? {
        Push(G.Inline(G.Wrap(w, top.code, top.code)));
      } else {
        var name := IncrStack();
        ghost var below := inlineStack;
        Push(G.Inline(G.Tmp(name)));
        var seen, stack := TopStack();
        var item := G.Wrap(w, G.Assign(name, top.code), stack);
        popped, top := PopStack();
        assert inlineStack == below;
        stackSlot := stackSlot - 1;
        Push(G.Inline(item));
      }
      return true;
    }

    method FlushInline()
      modifies this
      ensures Now() == G.FlushInline(old(Now()))
    {
      var entries := inlineStack;
      inlineStack := [];
      for i := 0 to |entries|
        invariant G.FlushEntries(Now(), entries[i..]) == G.FlushInline(old(Now()))
      {
        assert entries[i..][1..] == entries[i + 1..];
        if entries[i].Lit? {
          compileStack := compileStack + [entries[i]];
        } else {
          var stack := IncrStack();
          PushSource([G.SetTmp(stack, entries[i].code)]);
          compileStack := compileStack + [G.Inline(G.Tmp(stack))];
        }
      }
    }

    method PushSource(line: seq<G.Line>)
      modifies this
      ensures Now() == G.PushSource(old(Now()), line)
    {
      if pendingContent != "" {
        lines := lines + [G.TextLine(pendingContent)];
        pendingContent := "";
      }
      lines := lines + line;
      assert forall l: seq<G.Line> :: l + [] + line == l + line;
    }

    // ---------- Hashes ----------

    method EmptyHash(omitEmpty: bool)
      modifies this
      ensures Now() == G.EmptyHashStep(old(Now()), omitEmpty, options)
    {
      ghost var was := inlineStack;
      var braces := G.Inline(G.Atomic(G.Braces));
      if options.trackIds {
        Push(braces);
      }
      if options.stringParams {
        Push(braces);
        Push(braces);
      }
      PushStackLiteral(G.Atomic(if omitEmpty then G.Text(Undefined) else G.Braces));
      assert inlineStack == G.EmptyHashStep(old(Now()), omitEmpty, options).inlineStack;
    }

    method PushHash()
      modifies this
      ensures Now() == G.PushHashStep(old(Now()))
    {
      if hash.Some? {
        hashes := hashes + [hash.value];
      }
      hash := Some(G.HashState([], [], [], []));
    }

    method PopHash() returns (ok: bool)
      modifies this
      ensures ok <==> G.PopHashStep(old(Now()), options).Some?
      ensures ok ==> G.PopHashStep(old(Now()), options) == Some(Now())
    {
      if hash.None? {
        return false;
      }
      var h := hash.value;
      if hashes == [] {
        hash := None;
      } else {
        hash, hashes := Some(hashes[|hashes| - 1]), hashes[..|hashes| - 1];
      }
      if !G.ListableHash(h, options) {
        return false;
      }
      if options.trackIds {
        Push(G.Inline(G.HashLiteral(h.ids)));
      }
      if options.stringParams {
        Push(G.Inline(G.HashLiteral(h.contexts)));
        Push(G.Inline(G.HashLiteral(h.types)));
      }
      Push(G.Inline(G.HashLiteral(h.values)));
      assert inlineStack == G.PopHashStep(old(Now()), options).value.inlineStack;
      return true;
    }

    // ---------- Arguments ----------

    method PopOptional(used: bool) returns (ok: bool, code: G.Code)
      modifies this
      ensures ok <==> G.PopOptional(old(Now()), used).Some?
      ensures ok ==> G.PopOptional(old(Now()), used) == Some((code, Now()))
    {
      if !used {
        return true, NOTHING;
      }
      var item;
      ok, item := PopStack();
      code := item.code;
    }

    method PopArg() returns (ok: bool, arg: G.Arg)
      modifies this
      ensures ok <==> G.PopArg(old(Now()), options).Some?
      ensures ok ==> G.PopArg(old(Now()), options) == Some((arg, Now()))
    {
      hide G.PopOptional;
      arg := G.Arg(NOTHING, NOTHING, NOTHING, NOTHING);
      var value, id, typ, context;
      ok, value := PopOptional(true);
      if !ok {
        return;
      }
      ok, id := PopOptional(options.trackIds);
      if !ok {
        return;
      }
      ok, typ := PopOptional(options.stringParams);
      if !ok {
        return;
      }
      ok, context := PopOptional(options.stringParams);
      arg := G.Arg(value, id, typ, context);
    }

    method AssignToHash(key: string) returns (ok: bool)
      modifies this
      ensures ok <==> G.AssignToHashStep(old(Now()), key, options).Some?
      ensures ok ==> G.AssignToHashStep(old(Now()), key, options) == Some(Now())
    {
      hide G.PopArg, G.SetKey;
      var arg;
      Heights.PopArgKeeps(Now(), options);
      ok, arg := PopArg();
      if !ok || hash.None? {
        return false;
      }
      var h := hash.value;
      var contexts := if options.stringParams then G.SetKey(h.contexts, key, arg.context) else Some(h.contexts);
      var types := if options.stringParams then G.SetKey(h.types, key, arg.typ) else Some(h.types);
      var ids := if options.trackIds then G.SetKey(h.ids, key, arg.id) else Some(h.ids);
      var values := G.SetKey(h.values, key, arg.param);
      if contexts.None? || types.None? || ids.None? || values.None? {
        return false;
      }
      hash := Some(G.HashState(values.value, types.value, contexts.value, ids.value));
      return true;
    }

    /** `while (i--)`: the last parameter is popped first. */
    method PopArgs(n: nat) returns (ok: bool, args: seq<G.Arg>)
      modifies this
      ensures ok <==> G.PopArgs(old(Now()), n, options).Some?
      ensures ok ==> G.PopArgs(old(Now()), n, options) == Some((args, Now()))
    {
      hide G.PopArg;
      args := [];
      var i := n;
      AndNone(G.PopArgs(Now(), n, options));
      while i > 0
        invariant 0 <= i <= n
        invariant G.PopArgs(old(Now()), n, options) == AndArgs(G.PopArgs(Now(), i, options), args)
      {
        var arg;
        ghost var was := Now();
        ok, arg := PopArg();
        if !ok {
          return;
        }
        i := i - 1;
        ghost var rest := G.PopArgs(Now(), i, options);
        if rest.Some? {
          assert rest.value.0 + ([arg] + args) == rest.value.0 + [arg] + args;
        }
        args := [arg] + args;
      }
      ok := true;
      assert [] + args == args;
    }

    method SetupParams(name: string, paramSize: nat) returns (ok: bool, args: seq<G.Arg>, call: G.CallOptions)
      modifies this
      ensures ok <==> G.SetupParams(old(Now()), name, paramSize, options).Some?
      ensures ok ==> G.SetupParams(old(Now()), name, paramSize, options) == Some(G.Setup(args, call, Now()))
    {
      hide G.PopOptional, G.PopArg, G.PopArgs, G.Picked, G.OrNoop;
      args := [];
      call := G.CallOptions(name, NOTHING, NOTHING, NOTHING, NOTHING, NOTHING, NOTHING, [], [], []);
      var h, inverse, program;
      ok, h := PopArg();
      if !ok {
        return;
      }
      ok, inverse := PopOptional(true);
      if !ok {
        return;
      }
      ok, program := PopOptional(true);
      if !ok {
        return;
      }
      ok, args := PopArgs(paramSize);
      if !ok {
        return;
      }
      call := G.CallOptions(name, h.param, h.id, h.typ, h.context, G.OrNoop(program, inverse),
                            G.OrNoop(inverse, program),
                            if options.trackIds then G.Picked(args, G.IdPart) else [],
                            if options.stringParams then G.Picked(args, G.TypePart) else [],
                            if options.stringParams then G.Picked(args, G.ContextPart) else []);
    }

    // ---------- Opcodes ----------

    method ResolvePath(parts: seq<string>, start: nat, falsy: bool) returns (ok: bool)
      requires start <= |parts|
      modifies this
      ensures ok <==> G.ResolvePath(old(Now()), parts[start..], falsy).Some?
      ensures ok ==> G.ResolvePath(old(Now()), parts[start..], falsy) == Some(Now())
    {
      hide G.ReplaceStack;
      ok := true;
      for i := start to |parts|
        invariant ok && G.ResolvePath(old(Now()), parts[start..], falsy) == G.ResolvePath(Now(), parts[i..], falsy)
      {
        assert parts[i..][1..] == parts[i + 1..];
        ok := ReplaceStack(if falsy then G.AndMember(parts[i]) else G.NotNullMember(parts[i]));
        if !ok {
          return;
        }
      }
    }

    method Invoke(op: Opcode) returns (ok: bool)
      requires op.InvokeKnownHelper? || op.InvokeHelper?
      modifies this
      ensures ok <==> G.InvokeStep(old(Now()), op, options).Some?
      ensures ok ==> G.InvokeStep(old(Now()), op, options) == Some(Now())
    {
      hide G.PopStack, G.SetupParams, G.Picked;
      var nonHelper, args, call;
      if op.InvokeHelper? {
        ok, nonHelper := PopStack();
        if !ok {
          return;
        }
      }
      ok, args, call := SetupParams(op.name, op.paramSize);
      if !ok {
        return;
      }
      Push(G.Inline(if op.InvokeHelper? then G.HelperCall(op.isSimple, op.name, nonHelper.code,
                                                          G.Picked(args, G.ValuePart), call)
                    else G.KnownCall(op.name, G.Picked(args, G.ValuePart), call)));
    }

    method InvokeAmbiguous(name: string, isBlock: bool) returns (ok: bool)
      modifies this
      ensures var op := Opcode.InvokeAmbiguous(name, isBlock);
              (ok <==> G.InvokeStep(old(Now()), op, options).Some?) &&
              (ok ==> G.InvokeStep(old(Now()), op, options) == Some(Now()))
    {
      hide G.PopStack, G.SetupParams;
      var nonHelper, args, call;
      ok, nonHelper := PopStack();
      if !ok {
        return;
      }
      EmptyHash(false);
      ok, args, call := SetupParams(name, 0);
      if !ok {
        return;
      }
      lastHelper := Some(name);
      Push(G.Inline(G.AmbiguousCall(name, nonHelper.code, call, isBlock)));
    }

    method InvokePartial(isDynamic: bool, name: string, indent: string) returns (ok: bool)
      modifies this
      ensures var op := Opcode.InvokePartial(isDynamic, name, indent);
              (ok <==> G.InvokeStep(old(Now()), op, options).Some?) &&
              (ok ==> G.InvokeStep(old(Now()), op, options) == Some(Now()))
    {
      hide G.PopOptional, G.SetupParams;
      var callee, args, call;
      ok, args, call := SetupParams(name, 1);
      if !ok {
        return;
      }
      OneArgument(old(Now()), name, options);
      assert |args| == 1;
      ok, callee := PopOptional(isDynamic);
      if !ok {
        return;
      }
      Push(G.Inline(G.PartialCall(if isDynamic then callee else G.NamedPartial(name), args[0].param, call, indent)));
    }

    method RegisterDecorator(paramSize: nat, name: string) returns (ok: bool)
      modifies this
      ensures var op := Opcode.RegisterDecorator(paramSize, name);
              (ok <==> G.InvokeStep(old(Now()), op, options).Some?) &&
              (ok ==> G.InvokeStep(old(Now()), op, options) == Some(Now()))
    {
      hide G.SetupParams, G.Picked, G.PopArg, G.PopOptional, G.PopArgs;
      var args, call;
      Balance.SetupKeeps(Now(), name, paramSize, options);
      ok, args, call := SetupParams(name, paramSize);
      if !ok {
        return;
      }
      decorators := decorators + [G.KnownCall(name, G.Picked(args, G.ValuePart), call)];
    }

    method BlockValue(name: string) returns (ok: bool)
      modifies this
      ensures ok <==> G.BlockStep(old(Now()), Opcode.BlockValue(name), options).Some?
      ensures ok ==> G.BlockStep(old(Now()), Opcode.BlockValue(name), options) == Some(Now())
    {
      hide G.PopStack, G.SetupParams;
      var value, args, call;
      ok, args, call := SetupParams(name, 0);
      if !ok {
        return;
      }
      ok, value := PopStack();
      if !ok {
        return;
      }
      Push(G.Inline(G.BlockMissing(value.code, call)));
    }

    method AmbiguousBlockValue() returns (ok: bool)
      modifies this
      ensures ok <==> G.BlockStep(old(Now()), Opcode.AmbiguousBlockValue, options).Some?
      ensures ok ==> G.BlockStep(old(Now()), Opcode.AmbiguousBlockValue, options) == Some(Now())
    {
      hide G.PopStack, G.SetupParams, G.FlushInline;
      var args, call, current;
      Balance.SetupKeeps(Now(), "", 0, options);
      ok, args, call := SetupParams("", 0);
      if !ok {
        return;
      }
      FlushKeepsHelper(Now());
      FlushInline();
      ok, current := TopStack();
      if !ok {
        return;
      }
      PushSource([G.BlockFix(lastHelper, current)]);
    }

    method Append() returns (ok: bool)
      modifies this
      ensures ok <==> G.AppendStep(old(Now())).Some?
      ensures ok ==> G.AppendStep(old(Now())) == Some(Now())
    {
      hide G.PopStack;
      var local;
      if inlineStack != [] {
        ok := ReplaceStack(G.OrEmpty);
        ok, local := PopStack();
        if !ok {
          return;
        }
        PushSource([G.AppendLine(local.code)]);
      } else {
        ok, local := PopStack();
        if !ok {
          return;
        }
        PushSource([G.AppendIfNotNull(local.code)]);
      }
    }

    method AppendEscaped() returns (ok: bool)
      modifies this
      ensures ok <==> G.Step(old(Now()), Opcode.AppendEscaped, options).Some?
      ensures ok ==> G.Step(old(Now()), Opcode.AppendEscaped, options) == Some(Now())
    {
      hide G.PopStack;
      var local;
      ok, local := PopStack();
      if !ok {
        return;
      }
      PushSource([G.AppendEscapedLine(local.code)]);
    }

    method ResolvePossibleLambda() returns (ok: bool)
      modifies this
      ensures ok <==> G.Step(old(Now()), Opcode.ResolvePossibleLambda, options).Some?
      ensures ok ==> G.Step(old(Now()), Opcode.ResolvePossibleLambda, options) == Some(Now())
    {
      hide G.PopStack;
      var value;
      ok, value := PopStack();
      if !ok {
        return;
      }
      Push(G.Inline(G.Lambda(value.code)));
    }

    method PushStringParam(value: Literal, typ: string)
      modifies this
      ensures G.Step(old(Now()), Opcode.PushStringParam(value, typ), options) == Some(Now())
    {
      PushStackLiteral(G.Atomic(G.Context(lastContext)));
      PushStackLiteral(G.LiteralSlot(Quoted(typ)).code);
      if typ != "SubExpression" {
        PushStackLiteral(G.LiteralSlot(value).code);
      }
    }

    method Lookup(op: Opcode) returns (ok: bool)
      requires op.LookupBlockParam? || op.LookupData? || op.LookupOnContext?
      modifies this
      ensures ok <==> G.Step(old(Now()), op, options).Some?
      ensures ok ==> G.Step(old(Now()), op, options) == Some(Now())
    {
      hide G.ResolvePath;
      assert op.parts[0..] == op.parts;
      match op
      case LookupBlockParam(d, i, parts) =>
        Push(G.Inline(G.Atomic(G.BlockParam(d, i))));
        ok := ResolvePath(parts, if parts == [] then 0 else 1, false);
      case LookupData(d, parts, _) =>
        PushStackLiteral(G.Atomic(G.Data(d)));
        ok := ResolvePath(parts, 0, true);
      case LookupOnContext(parts, falsy, _, _) =>
        PushStackLiteral(G.Atomic(G.Context(lastContext)));
        ok := ResolvePath(parts, 0, falsy);
    }

    /** The opcodes that only push or print, and never throw. */
    method ApplyPush(op: Opcode)
      requires op.GetContext? || op.PushContext? || op.PushString? || op.PushLiteral? || op.PushStringParam? ||
               op.PushId? ||
               op.PushProgram? || op.EmptyHash? || op.PushHash? || op.AppendContent?
      modifies this
      ensures G.Step(old(Now()), op, options) == Some(Now())
    {
      hide G.PushHashStep, G.EmptyHashStep, G.LiteralSlot, G.IdSlot;
      match op
      case GetContext(d) => lastContext := d;
      case PushContext => PushStackLiteral(G.Atomic(G.Context(lastContext)));
      case PushString(t) => Push(G.LiteralSlot(Quoted(t)));
      case PushLiteral(l) => Push(G.LiteralSlot(l));
      case PushStringParam(value, typ) => PushStringParam(value, typ);
      case PushId(id) => Push(G.IdSlot(id));
      case PushProgram(guid) =>
        PushStackLiteral(G.Atomic(if guid.Some? then G.ProgramRef(guid.value) else G.NoProgram));
      case EmptyHash(omit) => EmptyHash(omit);
      case PushHash => PushHash();
      case AppendContent(content) => pendingContent := pendingContent + content;
    }

    /** `this[opcode.opcode].apply(this, opcode.args)`. */
    method Apply(op: Opcode) returns (ok: bool)
      modifies this
      ensures ok <==> G.Step(old(Now()), op, options).Some?
      ensures ok ==> G.Step(old(Now()), op, options) == Some(Now())
    {
      hide G.Step, G.InvokeStep, G.BlockStep, G.AppendStep, G.PopHashStep, G.AssignToHashStep, G.ResolvePath;
      ok := true;
      ghost var s := Now();
      StepIs(s, op, options);
      match op
      case LookupBlockParam(_, _, _) => ok := Lookup(op);
      case LookupData(_, _, _) => ok := Lookup(op);
      case LookupOnContext(_, _, _, _) => ok := Lookup(op);
      case AssignToHash(key) => ok := AssignToHash(key);
      case PopHash => ok := PopHash();
      case ResolvePossibleLambda => ok := ResolvePossibleLambda();
      case BlockValue(name) => ok := BlockValue(name);
      case AmbiguousBlockValue => ok := AmbiguousBlockValue();
      case Append => ok := Append();
      case AppendEscaped => ok := AppendEscaped();
      case InvokeKnownHelper(_, _) => ok := Invoke(op);
      case InvokeHelper(_, _, _) => ok := Invoke(op);
      case InvokeAmbiguous(name, isBlock) => ok := InvokeAmbiguous(name, isBlock);
      case InvokePartial(isDynamic, name, indent) => ok := InvokePartial(isDynamic, name, indent);
      case RegisterDecorator(n, name) => ok := RegisterDecorator(n, name);
      case _ => ApplyPush(op);
    }

    /** Runs the opcodes of an environment. Not ok is an exception of an opcode or "content left on stack";
        neither happens to a template that fits. */
    method Compile(opcodes: seq<Opcode>) returns (ok: bool)
      requires Now() == G.INITIAL
      modifies this
      ensures var t := G.Run(G.INITIAL, opcodes, options);
              (ok <==> t.Some? && t.value.stackSlot == 0 && t.value.inlineStack == [] && t.value.compileStack == []) &&
              (ok ==> lines == Finished(t.value))
    {
      hide G.Step;
      for i := 0 to |opcodes|
        invariant G.Run(G.INITIAL, opcodes, options) == G.Run(Now(), opcodes[i..], options)
      {
        assert opcodes[i..][1..] == opcodes[i + 1..];
        ok := Apply(opcodes[i]);
        if !ok {
          return;
        }
      }
      PushSource([]);
      ok := stackSlot == 0 && inlineStack == [] && compileStack == [];
    }
  }

  /** The result of popping i parameters, followed by the ones popped before. */
  ghost function AndArgs(r: Option<(seq<G.Arg>, G.State)>, args: seq<G.Arg>): Option<(seq<G.Arg>, G.State)> {
    if r.None? then None else Some((r.value.0 + args, r.value.1))
  }

  /** The functions that opcodes share. */
  lemma StepIs(s: G.State, op: Opcode, o: Options)
    ensures op.AssignToHash? ==> G.Step(s, op, o) == G.AssignToHashStep(s, op.key, o)
    ensures op.PopHash? ==> G.Step(s, op, o) == G.PopHashStep(s, o)
    ensures op.Append? ==> G.Step(s, op, o) == G.AppendStep(s)
    ensures op.BlockValue? || op.AmbiguousBlockValue? ==> G.Step(s, op, o) == G.BlockStep(s, op, o)
    ensures op.InvokeKnownHelper? || op.InvokeHelper? || op.InvokeAmbiguous? || op.InvokePartial? ||
            op.RegisterDecorator? ==>
              G.Step(s, op, o) == G.InvokeStep(s, op, o)
  {
    hide G.AssignToHashStep, G.PopHashStep, G.AppendStep, G.BlockStep, G.InvokeStep;
  }

  lemma AndNone(r: Option<(seq<G.Arg>, G.State)>)
    ensures AndArgs(r, []) == r
  {
    if r.Some? {
      assert r.value.0 + [] == r.value.0;
    }
  }

  lemma OneArgument(s: G.State, name: string, o: Options)
    ensures G.SetupParams(s, name, 1, o).Some? ==> |G.SetupParams(s, name, 1, o).value.args| == 1
  {
    hide G.PopArg, G.PopOptional;
  }

  lemma FlushKeepsHelper(s: G.State)
    ensures G.FlushInline(s).lastHelper == s.lastHelper
  {
    EntriesKeepHelper(s.(inlineStack := []), s.inlineStack);
  }

  lemma {:induction false} EntriesKeepHelper(s: G.State, entries: seq<G.Slot>)
    ensures G.FlushEntries(s, entries).lastHelper == s.lastHelper
    decreases |entries|
  {
    if entries != [] {
      if entries[0].Lit? {
        EntriesKeepHelper(s.(compileStack := s.compileStack + [entries[0]]), entries[1..]);
      } else {
        var t := G.IncrStack(s);
        var u := G.PushSource(t, [G.SetTmp(t.stackSlot, entries[0].code)]);
        EntriesKeepHelper(u.(compileStack := u.compileStack + [G.Inline(G.Tmp(t.stackSlot))]), entries[1..]);
      }
    }
  }
}
