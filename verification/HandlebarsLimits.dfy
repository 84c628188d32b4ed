/** Where compiled templates depart from their syntax tree: hash keys that an array
    cannot hold, and dynamic partials under explicitPartialContext. */
module HandlebarsLimits {
  import opened Wrappers
  import opened HandlebarsCompiler
  import opened HandlebarsCodegen
  import opened HandlebarsSemantics
  import opened HandlebarsCorrect
  import opened HandlebarsOutput

  // ---------- Hash keys ----------

  /** The keys of a hash assigned in order, as assignToHash assigns them to `hash.values`. */
  function AssignAll(es: seq<Entry>, assignments: seq<Entry>): Option<seq<Entry>>
    decreases |assignments|
  {
    if assignments == [] then Some(es) else
      var r := SetKey(es, assignments[0].key, assignments[0].code);
      if r.None? then None else AssignAll(r.value, assignments[1..])
  }

  predicate Holds(es: seq<Entry>, key: string) { exists i :: 0 <= i < |es| && es[i].key == key }

  lemma HoldsCons(e: Entry, es: seq<Entry>, key: string)
    ensures Holds([e] + es, key) <==> e.key == key || Holds(es, key)
  {
    var r := [e] + es;
    assert r[0] == e && forall i :: 0 <= i < |es| ==> es[i] == r[i + 1];
  }

  lemma {:induction false} PutHolds(es: seq<Entry>, key: string, code: Code, k: string)
    ensures Holds(PutEntry(es, key, code), k) <==> k == key || Holds(es, k)
    decreases |es|
  {
    hide Holds;
    if es == [] {
      HoldsCons(Entry(key, code), [], k);
      assert [Entry(key, code)] + [] == [Entry(key, code)];
    } else {
      assert es == [es[0]] + es[1..];
      HoldsCons(es[0], es[1..], k);
      if es[0].key == key {
        HoldsCons(Entry(key, code), es[1..], k);
      } else {
        PutHolds(es[1..], key, code, k);
        HoldsCons(es[0], PutEntry(es[1..], key, code), k);
      }
    }
  }

  lemma {:induction false} TruncatedHolds(es: seq<Entry>, n: nat, k: string)
    ensures Holds(Truncated(es, n), k) ==> Holds(es, k)
    decreases |es|
  {
    hide Holds, ArrayIndex;
    if es != [] {
      assert es == [es[0]] + es[1..];
      HoldsCons(es[0], es[1..], k);
      TruncatedHolds(es[1..], n, k);
      HoldsCons(es[0], Truncated(es[1..], n), k);
      assert [] + Truncated(es[1..], n) == Truncated(es[1..], n);
    }
  }

  /** The names an array takes as own properties when they are assigned. */
  predicate Own(key: string) { key != "length" && key != "__proto__" }

  lemma SetHolds(es: seq<Entry>, key: string, code: Code, k: string)
    requires SetKey(es, key, code).Some?
    ensures Holds(SetKey(es, key, code).value, k) ==> (k == key && Own(key)) || Holds(es, k)
    ensures Own(key) ==> (Holds(SetKey(es, key, code).value, k) <==> k == key || Holds(es, k))
  {
    hide Holds, Truncated, PutEntry;
    if Own(key) {
      PutHolds(es, key, code, k);
    } else if code.Atomic? && code.atom.Text? {
      if code.atom.literal.Number? && code.atom.literal.uint32.Some? {
        TruncatedHolds(es, code.atom.literal.uint32.value, k);
      } else if code.atom.literal.Bool? {
        TruncatedHolds(es, if code.atom.literal.value then 1 else 0, k);
      }
    }
  }

  lemma {:induction false} NeverHolds(es: seq<Entry>, assignments: seq<Entry>, k: string)
    requires !Own(k) && !Holds(es, k) && AssignAll(es, assignments).Some?
    ensures !Holds(AssignAll(es, assignments).value, k)
    decreases |assignments|
  {
    hide Holds, SetKey;
    if assignments != [] {
      SetHolds(es, assignments[0].key, assignments[0].code, k);
      NeverHolds(SetKey(es, assignments[0].key, assignments[0].code).value, assignments[1..], k);
    }
  }

  lemma {:induction false} OthersHeld(es: seq<Entry>, assignments: seq<Entry>, k: string)
    requires !Holds(assignments, "length") && !Holds(assignments, "__proto__")
    ensures AssignAll(es, assignments).Some?
    ensures Holds(AssignAll(es, assignments).value, k) <==> Holds(es, k) || Holds(assignments, k)
    decreases |assignments|
  {
    hide Holds;
    if assignments == [] {
      NothingHeld(k);
    } else {
      assert assignments == [assignments[0]] + assignments[1..];
      HoldsCons(assignments[0], assignments[1..], k);
      HoldsCons(assignments[0], assignments[1..], "length");
      HoldsCons(assignments[0], assignments[1..], "__proto__");
      PutHolds(es, assignments[0].key, assignments[0].code, k);
      OthersHeld(PutEntry(es, assignments[0].key, assignments[0].code), assignments[1..], k);
    }
  }

  lemma NothingHeld(k: string)
    ensures !Holds([], k)
  {
  }

  lemma ListableHolds(es: seq<Entry>)
    ensures Listable(es) <==> !Holds(es, "hasOwnProperty")
  {
  }

  /** A hash becomes an object with every key it was given exactly when each is a key an array holds: the
      object starts as an array, whose length and prototype "length" and "__proto__" set instead, and it is
      listed by asking its hasOwnProperty. */
  lemma HashHoldsKeysIff(assignments: seq<Entry>)
    ensures (var r := AssignAll([], assignments);
             r.Some? && Listable(r.value) && forall k: string :: Holds(assignments, k) ==> Holds(r.value, k))
            <==> forall k: string :: Holds(assignments, k) ==> PlainKey(k)
  {
    hide Holds, Listable;
    var r := AssignAll([], assignments);
    forall k: string
      ensures !Holds([], k)
    {
      NothingHeld(k);
    }
    if !Holds(assignments, "length") && !Holds(assignments, "__proto__") {
      forall k: string
        ensures r.Some? && (Holds(r.value, k) <==> Holds(assignments, k))
      {
        OthersHeld([], assignments, k);
      }
      ListableHolds(r.value);
    } else if r.Some? {
      NeverHolds([], assignments, if Holds(assignments, "length") then "length" else "__proto__");
    }
  }

  // ---------- Dynamic partials with an explicit context ----------

  /** The name is evaluated into the context's place, and the context undefined into the partial's. */
  function SwappedPartial<V>(call: Expr, hash: Hash, g: Option<nat>, indent: string, o: Options, bp: Scope,
                             rt: Runtime<V>): seq<Item<V>> {
    var context := Denoted(Denote(call, o, bp, rt), rt.atom(Absent), rt.atom(Absent), rt.atom(Absent));
    var options := DenoteOptions("", [context], DenoteHash(hash, true, o, bp, rt), g, None, o, rt);
    (if o.preventIndent then Chars(indent) else []) +
    [Value(OrEmptyText(rt, rt.invokePartial(rt.atom(Text(Undefined)), context.value, options, if o.preventIndent then ""
                                            else indent)))]
  }

  lemma RunSwappedHead<V(!new)>(s: State, call: Expr, hash: Hash, g: Option<nat>, o: Options, bp: Scope, rt: Runtime<V>)
    returns (t: State, q: Pushed)
    requires Width(o) == 1 && PlainExpr(call) && PlainHash(hash) && Ready(s) && o.explicitPartialContext
    ensures Run(s, PartialHead(Dynamic(call), [], hash, g, o, bp), o) == Some(t)
    ensures PartialState(s, t, Dynamic(call), LiteralSlot(Undefined), g, q)
    ensures PushedArgs(q.xs, q.args, o) && PushedArg(q.hs, q.hash, o) && |q.args| == 1
    ensures ArgMeans(q.args[0], Denoted(Denote(call, o, bp, rt), rt.atom(Absent), rt.atom(Absent), rt.atom(Absent)), rt)
    ensures ArgMeans(q.hash, DenoteHash(hash, true, o, bp, rt), rt)
  {
    hide Means, Run, PushedArg, ArgOf, EmitParams, EmitHash, EmitExpr, Denote, DenoteHash, PlainHash, PlainExpr;
    var slot := LiteralSlot(Undefined);
    var s1 := Push(s, slot);
    RunOne(s, PushLiteral(Undefined), o);
    var s2, x := RunExpr(s1, call, o, bp, rt);
    RunThen(s, [PushLiteral(Undefined)], s1, EmitExpr(call, o, bp), o);
    NoParams(o);
    var p := RunArguments(s2, SubExpression(NOWHERE, [], hash), [], hash, true, g, None, o, bp, rt);
    RunThen(s, [PushLiteral(Undefined)] + EmitExpr(call, o, bp), s2, EmitArguments([], g, None, hash, true, o, bp), o);
    var a := Arg(x.code, Atomic(Absent), Atomic(Absent), Atomic(Absent));
    SinglePushed(x, a, o);
    AtomMeans(Absent, rt);
    t, q := p.state, p.(xs := [x], args := [a]);
    var gs := [Lit(ProgramCode(g)), Lit(ProgramCode(None))];
    assert s.inlineStack + [slot] + [x] + ([] + gs + p.hs) == s.inlineStack + [slot] + [x] + gs + p.hs;
  }

  lemma NoParams(o: Options)
    ensures PlainExprs([])
  {
  }

  /** With an explicit context and no parameters, a dynamic partial gets name and context swapped. */
  lemma ExplicitContextSwaps<V(!new)>(s: State, call: Expr, hash: Hash, g: Option<nat>, indent: string,
                                      items: seq<Item<V>>,
                                      o: Options, bp: Scope, rt: Runtime<V>) returns (t: State)
    requires Width(o) == 1 && PlainExpr(call) && PlainHash(hash) && Clean(s) && o.explicitPartialContext &&
             Outputs(s, items, rt)
    ensures Run(s, EmitPartial(Dynamic(call), [], hash, g, indent, o, bp), o) == Some(t) && Clean(t)
    ensures Outputs(t, items + SwappedPartial(call, hash, g, indent, o, bp, rt), rt)
  {
    hide Means, Run, Outputs, PushedArg, PushedArgs, EmitParams, EmitHash, DenoteHash, EmitExpr, Denote, DenoteOptions,
         ArgMeans, EmitArguments;
    var partial := Dynamic(call);
    var head := PartialHead(partial, [], hash, g, o, bp);
    var s1, q := RunSwappedHead(s, call, hash, g, o, bp, rt);
    SameOutputs(s, s1, items, rt);
    var content := if o.preventIndent && indent != "" then [AppendContent(indent)] else [];
    var s2 := RunIndent(s1, indent, items, o, rt);
    RunThen(s, head, s1, content, o);
    var more := if o.preventIndent then Chars<V>(indent) else [];
    var inner := if o.preventIndent then "" else indent;
    var context := Denoted(Denote(call, o, bp, rt), rt.atom(Absent), rt.atom(Absent), rt.atom(Absent));
    AtomMeans(Text(Undefined), rt);
    var s3, y := RunInvokePartial(s2, [], q, context, DenoteHash(hash, true, o, bp, rt), g, partial,
                                  LiteralSlot(Undefined),
                                  rt.atom(Text(Undefined)), inner, o, rt);
    var op := InvokePartial(true, "", inner);
    RunThen(s, head + content, s2, [op], o);
    SameOutputs(s2, s3, items + more, rt);
    var v := rt.invokePartial(rt.atom(Text(Undefined)), context.value,
                              DenoteOptions("", [context], DenoteHash(hash, true, o, bp, rt), g, None, o, rt), inner);
    t := RunAppend1(s3, y, v, items + more, o, rt);
    RunThen(s, head + content + [op], s3, [Append], o);
    assert head + content + [op] + [Append] == head + content + [op, Append];
    assert items + (more + [Value(OrEmptyText(rt, v))]) == items + more + [Value(OrEmptyText(rt, v))];
  }

  /** A run-time with one special value, the literal undefined, that hands every partial back. */
  const ECHO: Runtime<bool> :=
    Runtime(a => a != Text(Undefined), (v, name) => true, v => false, v => true, v => true, v => true, m =>
            true, name => true, true, true,
            (f, vs, a) => true, name => true, (p, c, a, indent) => p, v => true)

  /** A partial without parameters under explicitPartialContext, and without ids or types, prints what it denotes under
      every run-time exactly when it is named. */
  lemma ExplicitContextIff(partial: PartialName, hash: Hash, g: Option<nat>, indent: string, o: Options, bp: Scope)
    requires Width(o) == 1 && PlainHash(hash) && o.explicitPartialContext
    requires partial.Dynamic? ==> partial.call.SubExpression? && PlainExpr(partial.call)
    ensures var t := Run(INITIAL, EmitPartial(partial, [], hash, g, indent, o, bp), o);
            t.Some? && ((forall rt: Runtime<bool> :: Outputs(t.value,
                                                             DenotePartial(partial, [], hash, g, indent, o, bp, rt),
                                                             rt)) <==> partial.Named?)
  {
    hide Run, Outputs, EmitPartial, DenotePartial, SwappedPartial, PlainHash, PlainExpr;
    NoParams(o);
    if partial.Named? {
      var t0 := RunNamed(partial, hash, g, indent, o, bp, ECHO);
      forall rt: Runtime<bool>
        ensures Outputs(t0, DenotePartial(partial, [], hash, g, indent, o, bp, rt), rt)
      {
        var t := RunNamed(partial, hash, g, indent, o, bp, rt);
      }
    } else {
      InitialOutputs(ECHO);
      var t := ExplicitContextSwaps(INITIAL, partial.call, hash, g, indent, [], o, bp, ECHO);
      var swapped := SwappedPartial(partial.call, hash, g, indent, o, bp, ECHO);
      assert [] + swapped == swapped;
      EchoDiffers(partial.call, hash, g, indent, o, bp);
      if Outputs(t, DenotePartial(partial, [], hash, g, indent, o, bp, ECHO), ECHO) {
        OutputsUnique(t, swapped, DenotePartial(partial, [], hash, g, indent, o, bp, ECHO), ECHO);
      }
    }
  }

  lemma RunNamed<V(!new)>(partial: PartialName, hash: Hash, g: Option<nat>, indent: string, o: Options, bp: Scope,
                          rt: Runtime<V>) returns (t: State)
    requires Width(o) == 1 && PlainHash(hash) && partial.Named?
    ensures Run(INITIAL, EmitPartial(partial, [], hash, g, indent, o, bp), o) == Some(t)
    ensures Outputs(t, DenotePartial(partial, [], hash, g, indent, o, bp, rt), rt)
  {
    hide Run, Outputs, EmitPartial, DenotePartial, PlainHash;
    InitialOutputs(rt);
    NoParams(o);
    t := RunPartial(INITIAL, partial, [], hash, g, indent, [], o, bp, rt);
    var items := DenotePartial(partial, [], hash, g, indent, o, bp, rt);
    assert [] + items == items;
  }

  lemma OutputsUnique<V(!new)>(s: State, a: seq<Item<V>>, b: seq<Item<V>>, rt: Runtime<V>)
    requires Outputs(s, a, rt) && Outputs(s, b, rt)
    ensures a == b
  {
    hide Exec;
    var st: Store<V> := Store(map[], None);
    assert Exec(s.lines + Pending(s), rt, st, []).1 == a;
  }

  lemma EchoDiffers(call: Expr, hash: Hash, g: Option<nat>, indent: string, o: Options, bp: Scope)
    requires call.SubExpression? && o.explicitPartialContext
    ensures SwappedPartial(call, hash, g, indent, o, bp, ECHO) !=
            DenotePartial(Dynamic(call), [], hash, g, indent, o, bp, ECHO)
  {
    hide DenoteHash, DenoteOptions, DenoteParams, DenotePath, Chars, ClassifySexpr;
    assert Denote(call, o, bp, ECHO) == true;
    var more := if o.preventIndent then Chars<bool>(indent) else [];
    var a, b := SwappedPartial(call, hash, g, indent, o, bp, ECHO),
      DenotePartial(Dynamic(call), [], hash, g, indent, o, bp, ECHO);
    assert a == more + [Value(false)] && b == more + [Value(true)];
    assert a[|more|] != b[|more|];
  }

  // ---------- Blocks without programs ----------

  /** Evaluating the code leaves the options register alone. */
  ghost predicate KeepsOptions<V(!new)>(c: Code, rt: Runtime<V>) {
    forall st: Store<V> :: Eval(c, rt, st).1.options == st.options
  }

  ghost predicate AllKeep<V(!new)>(s: State, rt: Runtime<V>) {
    s.compileStack == [] && forall i :: 0 <= i < |s.inlineStack| ==> KeepsOptions(s.inlineStack[i].code, rt)
  }

  lemma AtomKeeps<V(!new)>(a: Atom, rt: Runtime<V>)
    ensures KeepsOptions(Atomic(a), rt)
  {
  }

  lemma PushKeeps<V(!new)>(s: State, x: Slot, rt: Runtime<V>)
    requires AllKeep(s, rt) && KeepsOptions(x.code, rt)
    ensures AllKeep(Push(s, x), rt)
  {
    hide KeepsOptions;
  }

  lemma WrapKeeps<V(!new)>(w: Wrapper, test: Code, current: Code, rt: Runtime<V>)
    requires KeepsOptions(test, rt) && KeepsOptions(current, rt)
    ensures KeepsOptions(Wrap(w, test, current), rt)
  {
    forall st: Store<V>
      ensures Eval(Wrap(w, test, current), rt, st).1.options == st.options
    {
      var st1 := Eval(test, rt, st).1;
      assert Eval(current, rt, st1).1.options == st1.options;
      assert Eval(Member(current, if w.OrEmpty? then "" else w.name), rt, st1).1.options == st1.options;
    }
  }

  lemma AssignKeeps<V(!new)>(n: nat, c: Code, rt: Runtime<V>)
    requires KeepsOptions(c, rt)
    ensures KeepsOptions(Assign(n, c), rt) && KeepsOptions(Tmp(n), rt)
  {
  }

  lemma {:induction false} ResolveKeepsOptions<V(!new)>(s: State, parts: seq<string>, falsy: bool, rt: Runtime<V>)
    requires AllKeep(s, rt)
    ensures ResolvePath(s, parts, falsy).Some? ==> AllKeep(ResolvePath(s, parts, falsy).value, rt)
    decreases |parts|
  {
    hide KeepsOptions;
    if parts != [] && s.inlineStack != [] {
      var top := s.inlineStack[|s.inlineStack| - 1];
      var w := if falsy then AndMember(parts[0]) else NotNullMember(parts[0]);
      if top.Lit? {
        WrapKeeps(w, top.code, top.code, rt);
      } else {
        AssignKeeps(s.stackSlot + 1, top.code, rt);
        WrapKeeps(w, Assign(s.stackSlot + 1, top.code), Tmp(s.stackSlot + 1), rt);
      }
      ResolveKeepsOptions(ReplaceStack(s, w).value, parts[1..], falsy, rt);
    }
  }

  lemma PopOptionKeeps<V(!new)>(s: State, used: bool, rt: Runtime<V>)
    requires AllKeep(s, rt)
    ensures var p := PopOptional(s, used); p.Some? ==> AllKeep(p.value.1, rt) && KeepsOptions(p.value.0, rt)
  {
    hide KeepsOptions;
    AtomKeeps(Absent, rt);
  }

  /** The options of a call without parameters, made of entries that leave the register alone. */
  lemma SetupKeepsOptions<V(!new)>(s: State, name: string, o: Options, rt: Runtime<V>)
    requires AllKeep(s, rt)
    ensures var u := SetupParams(s, name, 0, o);
            u.Some? ==> AllKeep(u.value.rest, rt) && forall st: Store<V> ::
              EvalOptions(u.value.options, rt, st).1.options == st.options
  {
    hide AllKeep, KeepsOptions, PopOptional, Eval;
    var u := SetupParams(s, name, 0, o);
    if u.Some? {
      var p := PopOptional(s, true);
      PopOptionKeeps(s, true, rt);
      var id := PopOptional(p.value.1, o.trackIds);
      PopOptionKeeps(p.value.1, o.trackIds, rt);
      var typ := PopOptional(id.value.1, o.stringParams);
      PopOptionKeeps(id.value.1, o.stringParams, rt);
      var context := PopOptional(typ.value.1, o.stringParams);
      PopOptionKeeps(typ.value.1, o.stringParams, rt);
      var inverse := PopOptional(context.value.1, true);
      PopOptionKeeps(context.value.1, true, rt);
      var program := PopOptional(inverse.value.1, true);
      PopOptionKeeps(inverse.value.1, true, rt);
      AtomKeeps(Noop, rt);
      var c := u.value.options;
      assert c.hash == p.value.0 && c.hashIds == id.value.0 && c.hashTypes == typ.value.0 &&
             c.hashContexts == context.value.0;
      OptionsKeep(c, rt);
    }
  }

  lemma OptionsKeep<V(!new)>(c: CallOptions, rt: Runtime<V>)
    requires KeepsOptions(c.hash, rt) && KeepsOptions(c.hashIds, rt) && KeepsOptions(c.hashTypes, rt) &&
             KeepsOptions(c.hashContexts, rt)
    requires KeepsOptions(c.program, rt) && KeepsOptions(c.inverse, rt) && c.ids == [] && c.types == [] &&
             c.contexts == []
    ensures forall st: Store<V> :: EvalOptions(c, rt, st).1.options == st.options
  {
    hide Eval;
    forall st: Store<V>
      ensures EvalOptions(c, rt, st).1.options == st.options
    {
      var s1 := Eval(c.hash, rt, st).1;
      var s2 := Eval(c.hashIds, rt, s1).1;
      var s3 := Eval(c.hashTypes, rt, s2).1;
      var s4 := Eval(c.hashContexts, rt, s3).1;
      var s5 := Eval(c.program, rt, s4).1;
      var s6 := Eval(c.inverse, rt, s5).1;
      assert s6.options == st.options;
      assert EvalAll([], rt, s6).1 == s6;
    }
  }

  /** The opcodes of a lookup and of an ambiguous call that is no block. */
  predicate LooksUp(op: Opcode) {
    op.GetContext? || op.PushContext? || op.PushProgram? || op.LookupBlockParam? || op.LookupData? ||
      op.LookupOnContext? ||
    (op.InvokeAmbiguous? && !op.isBlock)
  }

  lemma EmptyHashKeeps<V(!new)>(s: State, o: Options, rt: Runtime<V>)
    requires AllKeep(s, rt)
    ensures AllKeep(EmptyHashStep(s, false, o), rt)
  {
    hide KeepsOptions;
    AtomKeeps(Braces, rt);
  }

  lemma CallKeeps<V(!new)>(name: string, n: Code, c: CallOptions, rt: Runtime<V>)
    requires KeepsOptions(n, rt) && forall st: Store<V> :: EvalOptions(c, rt, st).1.options == st.options
    ensures KeepsOptions(AmbiguousCall(name, n, c, false), rt)
  {
    hide CallAmbiguous, EvalOptions;
    forall st: Store<V>
      ensures Eval(AmbiguousCall(name, n, c, false), rt, st).1.options == st.options
    {
      var st1 := if rt.truthy(rt.helper(name)) then st else Eval(n, rt, st).1;
      assert EvalOptions(c, rt, st1).1.options == st1.options;
    }
  }

  lemma LookupKeeps<V(!new)>(s: State, op: Opcode, o: Options, rt: Runtime<V>)
    requires LooksUp(op) && AllKeep(s, rt)
    ensures Step(s, op, o).Some? ==> AllKeep(Step(s, op, o).value, rt)
  {
    hide KeepsOptions, Eval, EvalOptions, SetupParams, ResolvePath, AllKeep;
    if op.InvokeAmbiguous? {
      var nonHelper := PopStack(s);
      PopIsKept(s, rt);
      if nonHelper.Some? {
        var s1 := EmptyHashStep(nonHelper.value.1, false, o);
        EmptyHashKeeps(nonHelper.value.1, o, rt);
        SetupKeepsOptions(s1, op.name, o, rt);
        var u := SetupParams(s1, op.name, 0, o);
        if u.Some? {
          CallKeeps(op.name, nonHelper.value.0.code, u.value.options, rt);
          SameStacksKeep(u.value.rest, u.value.rest.(lastHelper := Some(op.name)), rt);
          PushKeeps(u.value.rest.(lastHelper := Some(op.name)),
                    Inline(AmbiguousCall(op.name, nonHelper.value.0.code, u.value.options, false)), rt);
        }
      }
    } else if op.GetContext? {
      SameStacksKeep(s, s.(lastContext := op.depth), rt);
    } else {
      LookupPushKeeps(s, op, o, rt);
    }
  }

  lemma LookupPushKeeps<V(!new)>(s: State, op: Opcode, o: Options, rt: Runtime<V>)
    requires op.PushContext? || op.PushProgram? || op.LookupBlockParam? || op.LookupData? || op.LookupOnContext?
    requires AllKeep(s, rt)
    ensures Step(s, op, o).Some? ==> AllKeep(Step(s, op, o).value, rt)
  {
    hide KeepsOptions, AllKeep, ResolvePath;
    var a := match op
             case LookupBlockParam(d, i, _) => BlockParam(d, i)
             case LookupData(d, _, _) => Data(d)
             case PushProgram(g) => if g.Some? then ProgramRef(g.value) else NoProgram
             case _ => Context(s.lastContext);
    var x := if op.LookupBlockParam? then Inline(Atomic(a)) else Lit(Atomic(a));
    AtomKeeps(a, rt);
    PushKeeps(s, x, rt);
    match op
    case LookupBlockParam(_, _, parts) =>
      ResolveKeepsOptions(Push(s, x), if parts == [] then [] else parts[1..], false, rt);
    case LookupData(_, parts, _) => ResolveKeepsOptions(Push(s, x), parts, true, rt);
    case LookupOnContext(parts, falsy, _, _) => ResolveKeepsOptions(Push(s, x), parts, falsy, rt);
    case _ =>
  }

  lemma PopIsKept<V(!new)>(s: State, rt: Runtime<V>)
    requires AllKeep(s, rt)
    ensures var p := PopStack(s); p.Some? ==> AllKeep(p.value.1, rt) && KeepsOptions(p.value.0.code, rt)
  {
    hide KeepsOptions;
  }

  lemma SameStacksKeep<V(!new)>(s: State, t: State, rt: Runtime<V>)
    requires AllKeep(s, rt) && s.inlineStack == t.inlineStack && s.compileStack == t.compileStack
    ensures AllKeep(t, rt)
  {
    hide KeepsOptions;
  }

  lemma {:induction false} LookupsKeep<V(!new)>(s: State, ops: seq<Opcode>, o: Options, rt: Runtime<V>)
    requires (forall i :: 0 <= i < |ops| ==> LooksUp(ops[i])) && AllKeep(s, rt)
    ensures Run(s, ops, o).Some? ==> AllKeep(Run(s, ops, o).value, rt)
    decreases |ops|
  {
    hide AllKeep, Step, LooksUp;
    if ops != [] {
      LookupKeeps(s, ops[0], o, rt);
      if Step(s, ops[0], o).Some? {
        LookupsKeep(Step(s, ops[0], o).value, ops[1..], o, rt);
      }
    }
  }

  /** An ambiguous block without programs runs, and hands blockHelperMissing the options some earlier block left
      behind. */
  lemma BlockAlone<V(!new)>(p: Path, stale: CallArguments<V>, o: Options, bp: Scope, rt: Runtime<V>)
    returns (t: State, st: Store<V>)
    requires OneMode(o) && PerhapsHelper(o, bp, p, false)
    ensures Run(INITIAL, EmitBlock(p, [], NoHash, None, None, o, bp), o) == Some(t)
    ensures st == Store(map[], Some(stale))
    ensures Exec(t.lines + Pending(t), rt, st, []).1 == AmbiguousBlock(rt, HeadName(p),
        DenoteAmbiguous(p, None, None, o, bp, rt), stale)
  {
    KindIff(o, bp, p, false);
    hide Run, ClassifySexpr, SurelyHelper, PerhapsHelper, EmitPath, DenotePath, AmbiguousOptions, OptionsMean,
         CallAmbiguous, Eval, Exec, AmbiguousBlock, AllKeep, KeepsOptions;
    var s1, y, n, u := PathThenAmbiguous(INITIAL, p, None, None, o, bp, rt);
    var name := HeadName(p);
    LookupsHere(p, bp);
    NothingKept(rt);
    LookupsKeep(INITIAL, EmitAmbiguous(p, None, None, bp), o, rt);
    t := RunAmbiguousBlock(s1, name, y.code, None, None, o, rt);
    var rest := [PushProgram(None), PushProgram(None), EmptyHash(false), AmbiguousBlockValue];
    RunThen(INITIAL, EmitAmbiguous(p, None, None, bp), s1, rest + [Append], o);
    assert EmitAmbiguous(p, None, None, bp) + (rest + [Append]) == EmitAmbiguous(p, None, None, bp) + rest + [Append];
    st := Store(map[], Some(stale));
    TopKeeps(s1, y, rt, st);
    AmbiguousMeans(name, n, DenotePath(p, false, bp, rt), u.options, AmbiguousOptions(name, None, None, o, rt), false,
                   rt, st);
    ExecBlockLines(y.code, name, DenoteAmbiguous(p, None, None, o, bp, rt), stale, rt, st, []);
    assert t.lines + Pending(t) == BlockLines(y.code, name);
    var items := AmbiguousBlock(rt, name, DenoteAmbiguous(p, None, None, o, bp, rt), stale);
    assert [] + items == items;
  }

  lemma NothingKept<V(!new)>(rt: Runtime<V>)
    ensures AllKeep(INITIAL, rt)
  {
  }

  lemma TopKeeps<V(!new)>(s: State, y: Slot, rt: Runtime<V>, st: Store<V>)
    requires AllKeep(s, rt) && s.inlineStack == [y]
    ensures Eval(y.code, rt, st).1.options == st.options
  {
    hide Eval;
    assert KeepsOptions(s.inlineStack[0].code, rt);
  }

  lemma LookupsHere(p: Path, bp: Scope)
    ensures forall i :: 0 <= i < |EmitAmbiguous(p, None, None, bp)| ==> LooksUp(EmitAmbiguous(p, None, None, bp)[i])
  {
    hide BlockParamIndex, ScopedId;
  }

  /** A run-time without helpers whose calls say whether the options they get are named so. */
  function Naming(name: string): Runtime<bool> {
    Runtime(a => true, (v, key) => true, v => false, v => v, v => false, v => true, m => true, key => false, true, true,
            (f: bool, vs: seq<bool>, a: CallArguments<bool>) => a.name == name, key => true, (f, c, a, indent) =>
            true, v => true)
  }

  /** A block prints what it denotes under every run-time, whatever earlier blocks have left in the options register,
      exactly when it has a program or an inverse or is not ambiguous. */
  lemma BlockPrintsIff(p: Path, params: seq<Expr>, hash: Hash, g: Option<nat>, h: Option<nat>, o: Options, bp: Scope)
    requires OneMode(o) && PlainExprs(params) && PlainHash(hash)
    ensures var t := Run(INITIAL, EmitBlock(p, params, hash, g, h, o, bp), o);
            t.Some? && ((forall rt: Runtime<bool> :: Outputs(t.value, DenoteBlock(p, params, hash, g, h, o, bp, rt),
                                                             rt)) <==>
                        FitsBlock(p, params, hash, g.Some? || h.Some?, o, bp))
  {
    hide Run, Outputs, EmitBlock, DenoteBlock, PlainExprs, PlainHash, PerhapsHelper, AmbiguousBlock, DenoteAmbiguous;
    if FitsBlock(p, params, hash, g.Some? || h.Some?, o, bp) {
      var t0 := RunBlockAlone(p, params, hash, g, h, o, bp, Naming(""));
      forall rt: Runtime<bool>
        ensures Outputs(t0, DenoteBlock(p, params, hash, g, h, o, bp, rt), rt)
      {
        var t := RunBlockAlone(p, params, hash, g, h, o, bp, rt);
      }
    } else {
      NoArguments(o, bp, p, params, hash);
      var rt := Naming(HeadName(p));
      var stale := StaleOptions(HeadName(p));
      var t, st := BlockAlone(p, stale, o, bp, rt);
      StaleDiffers(p, stale, o, bp);
      if Outputs(t, DenoteBlock(p, [], NoHash, None, None, o, bp, rt), rt) {
        OutputsAt(t, DenoteBlock(p, [], NoHash, None, None, o, bp, rt), rt, st);
      }
    }
  }

  lemma OutputsAt<V(!new)>(s: State, items: seq<Item<V>>, rt: Runtime<V>, st: Store<V>)
    requires Outputs(s, items, rt)
    ensures Exec(s.lines + Pending(s), rt, st, []).1 == items
  {
    hide Exec;
  }

  lemma NoArguments(o: Options, bp: Scope, p: Path, params: seq<Expr>, hash: Hash)
    requires PerhapsHelper(o, bp, p, params != [] || hash != NoHash)
    ensures params == [] && hash == NoHash && PerhapsHelper(o, bp, p, false)
  {
  }

  lemma NeverBoth(o: Options, bp: Scope, p: Path)
    ensures !(SurelyHelper(o, bp, p, false) && PerhapsHelper(o, bp, p, false))
  {
  }

  function StaleOptions(name: string): CallArguments<bool> {
    CallArguments(name + "!", true, true, true, true, true, true, [], [], [])
  }

  lemma StaleDiffers(p: Path, stale: CallArguments<bool>, o: Options, bp: Scope)
    requires stale == StaleOptions(HeadName(p)) && PerhapsHelper(o, bp, p, false)
    ensures AmbiguousBlock(Naming(HeadName(p)), HeadName(p), DenoteAmbiguous(p, None, None, o, bp, Naming(HeadName(p))),
                           stale) !=
            DenoteBlock(p, [], NoHash, None, None, o, bp, Naming(HeadName(p)))
  {
    NeverBoth(o, bp, p);
    hide SurelyHelper, PerhapsHelper, DenoteAmbiguous, DenoteHash;
    var name, rt := HeadName(p), Naming(HeadName(p));
    var v := DenoteAmbiguous(p, None, None, o, bp, rt);
    assert |name + "!"| == |name| + 1;
    assert AmbiguousBlock(rt, name, v, stale) == [Value(false)];
    assert AmbiguousBlock(rt, name, v, AmbiguousOptions(name, None, None, o, rt)) == [Value(true)];
  }

  lemma RunBlockAlone<V(!new)>(p: Path, params: seq<Expr>, hash: Hash, g: Option<nat>, h: Option<nat>, o: Options,
                               bp: Scope,
                               rt: Runtime<V>) returns (t: State)
    requires OneMode(o) && PlainExprs(params) && PlainHash(hash) &&
             FitsBlock(p, params, hash, g.Some? || h.Some?, o, bp)
    ensures Run(INITIAL, EmitBlock(p, params, hash, g, h, o, bp), o) == Some(t)
    ensures Outputs(t, DenoteBlock(p, params, hash, g, h, o, bp, rt), rt)
  {
    hide Run, Outputs, EmitBlock, DenoteBlock, PlainExprs, PlainHash, FitsBlock;
    InitialOutputs(rt);
    t := RunBlock(INITIAL, p, params, hash, g, h, [], o, bp, rt);
    var items := DenoteBlock(p, params, hash, g, h, o, bp, rt);
    assert [] + items == items;
  }
}
