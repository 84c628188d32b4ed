/** Statements and whole programs: the generated lines print what the syntax tree
    denotes, and nothing is left on either stack. */
module HandlebarsOutput {
  import opened Wrappers
  import opened HandlebarsCompiler
  import opened HandlebarsCodegen
  import opened HandlebarsSemantics
  import opened HandlebarsCorrect

  // ---------- Executing lines ----------

  lemma {:induction false} ExecAppend<V>(a: seq<Line>, b: seq<Line>, rt: Runtime<V>, st: Store<V>, out: seq<Item<V>>)
    ensures Exec(a + b, rt, st, out) == Exec(b, rt, Exec(a, rt, st, out).0, Exec(a, rt, st, out).1)
    decreases |a|
  {
    hide ExecLine;
    if a == [] {
      assert a + b == b;
    } else {
      assert (a + b)[1..] == a[1..] + b;
      var (st1, out1) := ExecLine(a[0], rt, st, out);
      ExecAppend(a[1..], b, rt, st1, out1);
    }
  }

  lemma ExecOne<V>(l: Line, rt: Runtime<V>, st: Store<V>, out: seq<Item<V>>)
    ensures Exec([l], rt, st, out) == ExecLine(l, rt, st, out)
  {
    hide ExecLine;
    assert [l][1..] == [];
  }

  function Pending(s: State): seq<Line> { if s.pendingContent != "" then [TextLine(s.pendingContent)] else [] }

  /** Whatever the variables hold, the lines so far and the pending content print the items. */
  ghost predicate Outputs<V(!new)>(s: State, items: seq<Item<V>>, rt: Runtime<V>) {
    forall st: Store<V> :: Exec(s.lines + Pending(s), rt, st, []).1 == items
  }

  /** The line adds the items to the output, whatever the variables hold. */
  ghost predicate Adds<V(!new)>(ls: seq<Line>, items: seq<Item<V>>, rt: Runtime<V>) {
    forall st: Store<V>, out: seq<Item<V>> :: Exec(ls, rt, st, out).1 == out + items
  }

  lemma SourceOutputs<V(!new)>(s: State, items: seq<Item<V>>, ls: seq<Line>, more: seq<Item<V>>, rt: Runtime<V>)
    requires Outputs(s, items, rt) && Adds(ls, more, rt)
    ensures Outputs(PushSource(s, ls), items + more, rt)
  {
    hide Exec;
    var t := PushSource(s, ls);
    assert t.lines + Pending(t) == (s.lines + Pending(s)) + ls;
    forall st: Store<V>
      ensures Exec(t.lines + Pending(t), rt, st, []).1 == items + more
    {
      ExecAppend(s.lines + Pending(s), ls, rt, st, []);
    }
  }

  lemma {:induction false} CharsAppend<V>(a: string, b: string)
    ensures Chars<V>(a + b) == Chars(a) + Chars(b)
  {
    if a == "" {
      assert a + b == b;
    } else {
      assert (a + b)[1..] == a[1..] + b;
      CharsAppend<V>(a[1..], b);
    }
  }

  lemma ContentOutputs<V(!new)>(s: State, items: seq<Item<V>>, content: string, rt: Runtime<V>)
    requires Outputs(s, items, rt)
    ensures Outputs(s.(pendingContent := s.pendingContent + content), items + Chars(content), rt)
  {
    hide Exec;
    var t := s.(pendingContent := s.pendingContent + content);
    CharsAppend<V>(s.pendingContent, content);
    forall st: Store<V>
      ensures Exec(t.lines + Pending(t), rt, st, []).1 == items + Chars(content)
    {
      PendingText(s, rt, st);
      PendingText(t, rt, st);
      assert Exec(s.lines + Pending(s), rt, st, []).1 == items;
    }
  }

  lemma PendingText<V>(s: State, rt: Runtime<V>, st: Store<V>)
    ensures Exec(s.lines + Pending(s), rt, st, []).1 == Exec(s.lines, rt, st, []).1 + Chars(s.pendingContent)
  {
    var (st1, out1) := Exec(s.lines, rt, st, []);
    ExecAppend(s.lines, Pending(s), rt, st, []);
    hide Exec;
    if s.pendingContent != "" {
      ExecOne(TextLine(s.pendingContent), rt, st1, out1);
    } else {
      ExecNothing(rt, st1, out1);
    }
  }

  lemma ExecNothing<V>(rt: Runtime<V>, st: Store<V>, out: seq<Item<V>>)
    ensures Exec([], rt, st, out) == (st, out)
  {
  }

  lemma AppendAdds<V(!new)>(c: Code, v: V, rt: Runtime<V>)
    requires Means(c, v, rt)
    ensures Adds([AppendLine(c)], [Value(v)], rt) && Adds([AppendEscapedLine(c)], [Value(rt.escape(v))], rt)
  {
    forall st: Store<V>, out: seq<Item<V>>
      ensures Exec([AppendLine(c)], rt, st, out).1 == out + [Value(v)]
      ensures Exec([AppendEscapedLine(c)], rt, st, out).1 == out + [Value(rt.escape(v))]
    {
      ExecOne(AppendLine(c), rt, st, out);
      ExecOne(AppendEscapedLine(c), rt, st, out);
    }
  }

  // ---------- Statement boundaries ----------

  /** Nothing on the stacks, no variable in use, no open hash. */
  predicate Clean(s: State) {
    s.inlineStack == [] && s.compileStack == [] && s.stackSlot == 0 && s.hash.None? && s.hashes == []
  }

  /** t is s with one more entry; the last helper may have changed. */
  predicate PushesOne(s: State, t: State, y: Slot) {
    t == s.(inlineStack := s.inlineStack + [y], stackVars := t.stackVars, lastContext := t.lastContext, lastHelper :=
            t.lastHelper)
  }

  lemma PathThenAmbiguous<V(!new)>(s: State, p: Path, program: Option<nat>, inverse: Option<nat>,
                                   o: Options, bp: Scope, rt: Runtime<V>)
    returns (t: State, y: Slot, n: Code, u: Setup)
    requires OneMode(o) && Ready(s)
    ensures Run(s, EmitAmbiguous(p, program, inverse, bp), o) == Some(t)
    ensures PushesOne(s, t, y) && t.lastHelper == Some(HeadName(p))
    ensures y == Inline(AmbiguousCall(HeadName(p), n, u.options, program.Some? || inverse.Some?))
    ensures Means(n, DenotePath(p, false, bp, rt), rt)
    ensures OptionsMean(u.options, AmbiguousOptions(HeadName(p), program, inverse, o, rt), rt)
  {
    hide Means, Run, EmitPath, DenotePath, OptionsMean, SetupParams, PushedArg, PushedArgs, ArgMeans, DenoteOptions,
         DenoteHash;
    var name, isBlock := HeadName(p), program.Some? || inverse.Some?;
    var s1 := s.(lastContext := p.depth);
    var g, h := Lit(ProgramCode(program)), Lit(ProgramCode(inverse));
    var s2 := Push(Push(s1, g), h);
    RunOne(s, GetContext(p.depth), o);
    RunPrograms(s1, program, inverse, o);
    RunThen(s, [GetContext(p.depth)], s1, [PushProgram(program), PushProgram(inverse)], o);
    var head := [GetContext(p.depth), PushProgram(program), PushProgram(inverse)];
    assert [GetContext(p.depth)] + [PushProgram(program), PushProgram(inverse)] == head;
    var s3, x := RunPath(s2, p, false, true, o, bp, rt);
    RunThen(s, head, s2, EmitPath(p, false, true, bp), o);
    PopTop(s3, s2.inlineStack, x);
    var s4 := s3.(inlineStack := s2.inlineStack);
    var s5, hs, a := RunEmptyHash(s4, false, o, bp, rt);
    NoPushedArgs(o);
    assert s5.inlineStack == s.inlineStack + [] + [g, h] + hs;
    NoScope(o, bp, rt);
    u := SetupMeans(s5, s.inlineStack, Pushed(s5, [], a, [], hs), name, [], [], DenoteHash(NoHash, false, o, [], rt),
                    program, inverse, o, rt);
    n := x.code;
    y := Inline(AmbiguousCall(name, n, u.options, isBlock));
    t := Push(u.rest.(lastHelper := Some(name)), y);
    RunThen(s, head + EmitPath(p, false, true, bp), s3, [InvokeAmbiguous(name, isBlock)], o);
    RunOne(s3, InvokeAmbiguous(name, isBlock), o);
  }

  lemma NoPushedArgs(o: Options)
    ensures PushedArgs([], [], o)
  {
  }

  lemma NoScope<V>(o: Options, bp: Scope, rt: Runtime<V>)
    ensures DenoteHash(NoHash, false, o, bp, rt) == DenoteHash(NoHash, false, o, [], rt)
  {
  }

  /** An ambiguous call computes the denotation and, for a block, leaves its options in the register. */
  lemma AmbiguousMeans<V(!new)>(name: string, n: Code, v: V, c: CallOptions, a: CallArguments<V>, isBlock: bool,
                                rt: Runtime<V>, st: Store<V>)
    requires Means(n, v, rt) && OptionsMean(c, a, rt)
    ensures var (x, st1) := Eval(AmbiguousCall(name, n, c, isBlock), rt, st);
            x == CallAmbiguous(rt, name, v, a) && (isBlock ==> st1.options == Some(a))
  {
    hide OptionsMean, EvalOptions;
    assert Eval(n, rt, st).0 == v;
    EvalOptionsMeans(c, a, rt, if rt.truthy(rt.helper(name)) then st else Eval(n, rt, st).1);
  }

  lemma RunAmbiguous<V(!new)>(s: State, p: Path, o: Options, bp: Scope, rt: Runtime<V>) returns (t: State, y: Slot)
    requires OneMode(o) && Ready(s)
    ensures Run(s, EmitAmbiguous(p, None, None, bp), o) == Some(t) && PushesOne(s, t, y)
    ensures Means(y.code, DenoteAmbiguous(p, None, None, o, bp, rt), rt)
  {
    hide Run, EmitAmbiguous, DenotePath, OptionsMean, AmbiguousOptions, Eval, CallAmbiguous;
    var n, u;
    t, y, n, u := PathThenAmbiguous(s, p, None, None, o, bp, rt);
    forall st: Store<V>
      ensures Eval(y.code, rt, st).0 == DenoteAmbiguous(p, None, None, o, bp, rt)
    {
      AmbiguousMeans(HeadName(p), n, DenotePath(p, false, bp, rt), u.options,
                     AmbiguousOptions(HeadName(p), None, None, o, rt), false, rt, st);
    }
  }

  /** Mustaches and blocks with parameters or a hash, as one expression. */
  lemma RunHelper<V(!new)>(s: State, p: Path, params: seq<Expr>, hash: Hash, g: Option<nat>, h: Option<nat>,
                           o: Options, bp: Scope, rt: Runtime<V>) returns (t: State, y: Slot)
    requires OneMode(o) && PlainExprs(params) && PlainHash(hash) && Ready(s)
    ensures Run(s, EmitArguments(params, g, h, hash, false, o, bp) + EmitInvoke(p, |params|, o, bp), o) == Some(t)
    ensures PushesOne(s, t, y)
    ensures Means(y.code, DenoteCall(p, DenoteParams(params, o, bp, rt), DenoteHash(hash, false, o, bp, rt), g, h, o,
                                     bp, rt), rt)
  {
    hide Run, Means, DenoteCall, EmitInvoke, EmitParams, EmitHash;
    t, y := RunCall(s, SubExpression(p, params, hash), p, params, hash, g, h, o, bp, rt);
  }

  lemma RunMustache<V(!new)>(s: State, p: Path, params: seq<Expr>, hash: Hash, o: Options, bp: Scope, rt: Runtime<V>)
    returns (t: State, y: Slot)
    requires OneMode(o) && PlainExprs(params) && PlainHash(hash) && Ready(s)
    ensures Run(s, EmitMustache(p, params, hash, o, bp), o) == Some(t) && PushesOne(s, t, y)
    ensures Means(y.code, DenoteMustache(p, params, hash, o, bp, rt), rt)
  {
    hide Run, Means, ClassifySexpr, SurelyHelper, PerhapsHelper, EmitPath, DenotePath, EmitAmbiguous, EmitArguments,
         EmitInvoke, DenoteCall, DenoteAmbiguous;
    KindIff(o, bp, p, HelperExpression(false, params, hash));
    match ClassifySexpr(o, bp, p, HelperExpression(false, params, hash))
    case Simple =>
      var s1, x := RunPath(s, p, false, true, o, bp, rt);
      t, y := RunLambda(s, s1, x, EmitPath(p, false, true, bp), DenotePath(p, false, bp, rt), o, rt);
    case Ambiguous =>
      t, y := RunAmbiguous(s, p, o, bp, rt);
    case Helper =>
      t, y := RunHelper(s, p, params, hash, None, None, o, bp, rt);
  }

  /** `appendEscaped` on a single inline entry. */
  lemma RunAppendEscaped<V(!new)>(s: State, y: Slot, v: V, items: seq<Item<V>>, o: Options, rt: Runtime<V>)
    returns (t: State)
    requires s.inlineStack == [y] && Clean(s.(inlineStack := []))
    requires Means(y.code, v, rt) && Outputs(s, items, rt)
    ensures Run(s, [AppendEscaped], o) == Some(t) && Clean(t)
    ensures Outputs(t, items + [Value(rt.escape(v))], rt) && PrintsOnce(s, t)
  {
    hide Run, Means, Outputs, Adds, PrintsOnce;
    assert s.inlineStack == [] + [y];
    RunOne(s, AppendEscaped, o);
    PopTop(s, [], y);
    AppendAdds(y.code, v, rt);
    var s1 := s.(inlineStack := []);
    SameOutputs(s, s1, items, rt);
    SourceOutputs(s1, items, [AppendEscapedLine(y.code)], [Value(rt.escape(v))], rt);
    t := PushSource(s1, [AppendEscapedLine(y.code)]);
    SourcePrints(s, s1, AppendEscapedLine(y.code));
  }

  predicate Prints(l: Line) { l.AppendLine? || l.AppendEscapedLine? || l.TextLine? || l.AppendIfNotNull? }

  /** t has one printing line more than s, and it comes last. */
  predicate PrintsOnce(s: State, t: State) {
    var base, n := s.lines + Pending(s), |t.lines|;
    && t.pendingContent == "" && n > |base| && t.lines[..|base|] == base && Prints(t.lines[n - 1])
    && forall i :: |base| <= i < n - 1 ==> t.lines[i].SetTmp? || t.lines[i].BlockFix?
  }

  lemma SourcePrints(s: State, s1: State, l: Line)
    requires s.lines == s1.lines && s.pendingContent == s1.pendingContent && Prints(l)
    ensures PrintsOnce(s, PushSource(s1, [l]))
  {
  }

  lemma AppendStepInline(s: State, s1: State, z: Slot, o: Options)
    requires s.inlineStack != [] && ReplaceStack(s, OrEmpty) == Some(s1) && s1.inlineStack == [z]
    ensures Step(s, Append, o) == Some(PushSource(s1.(inlineStack := []), [AppendLine(z.code)]))
  {
    hide ReplaceStack;
    assert s1.inlineStack == [] + [z];
    PopTop(s1, [], z);
  }

  /** `append` on a single inline entry: null and undefined print as nothing. */
  lemma RunAppend1<V(!new)>(s: State, y: Slot, v: V, items: seq<Item<V>>, o: Options, rt: Runtime<V>) returns (t: State)
    requires s.inlineStack == [y] && Clean(s.(inlineStack := []))
    requires Means(y.code, v, rt) && Outputs(s, items, rt)
    ensures Run(s, [Append], o) == Some(t) && Clean(t)
    ensures Outputs(t, items + [Value(OrEmptyText(rt, v))], rt) && PrintsOnce(s, t)
  {
    hide Run, Means, Outputs, Adds, ReplaceStack, Step, PrintsOnce;
    assert s.inlineStack == [] + [y];
    var s1, z := ReplaceMeans(s, [], y, v, OrEmpty, rt);
    AppendStepInline(s, s1, z, o);
    RunOne(s, Append, o);
    AppendAdds(z.code, OrEmptyText(rt, v), rt);
    var s2 := s1.(inlineStack := []);
    SameOutputs(s, s2, items, rt);
    SourceOutputs(s2, items, [AppendLine(z.code)], [Value(OrEmptyText(rt, v))], rt);
    t := PushSource(s2, [AppendLine(z.code)]);
    SourcePrints(s, s2, AppendLine(z.code));
  }

  lemma SameOutputs<V(!new)>(s: State, t: State, items: seq<Item<V>>, rt: Runtime<V>)
    requires Outputs(s, items, rt) && s.lines == t.lines && s.pendingContent == t.pendingContent
    ensures Outputs(t, items, rt)
  {
    hide Exec;
    assert s.lines + Pending(s) == t.lines + Pending(t);
  }

  // ---------- Blocks ----------

  /** The arguments blockHelperMissing gets: no parameters, an empty hash and the two programs. */
  lemma RunBlockArguments<V(!new)>(s: State, name: string, g: Option<nat>, h: Option<nat>, o: Options, rt: Runtime<V>)
    returns (t: State, u: Setup)
    requires OneMode(o)
    ensures Run(s, [PushProgram(g), PushProgram(h), EmptyHash(false)], o) == Some(t)
    ensures t == s.(inlineStack := t.inlineStack) && SetupParams(t, name, 0, o) == Some(u) && u.rest == s
    ensures OptionsMean(u.options, AmbiguousOptions(name, g, h, o, rt), rt)
  {
    hide Means, Run, OptionsMean, SetupParams, PushedArg, PushedArgs, ArgMeans, DenoteOptions, DenoteHash;
    var gs, hs := Lit(ProgramCode(g)), Lit(ProgramCode(h));
    var s1 := Push(Push(s, gs), hs);
    RunPrograms(s, g, h, o);
    var xs, a;
    t, xs, a := RunEmptyHash(s1, false, o, [], rt);
    NoPushedArgs(o);
    assert t.inlineStack == s.inlineStack + [] + [gs, hs] + xs;
    u := SetupMeans(t, s.inlineStack, Pushed(t, [], a, [], xs), name, [], [], DenoteHash(NoHash, false, o, [], rt), g,
                    h, o, rt);
    RunThen(s, [PushProgram(g), PushProgram(h)], s1, [EmptyHash(false)], o);
    RunOne(s1, EmptyHash(false), o);
    assert [PushProgram(g), PushProgram(h)] + [EmptyHash(false)] == [PushProgram(g), PushProgram(h), EmptyHash(false)];
  }

  lemma BlockMissingMeans<V(!new)>(c: Code, v: V, os: CallOptions, a: CallArguments<V>, rt: Runtime<V>)
    requires Means(c, v, rt) && OptionsMean(os, a, rt)
    ensures Means(BlockMissing(c, os), rt.call(rt.blockHelperMissing, [v], a), rt)
  {
    hide OptionsMean, EvalOptions;
    forall st: Store<V>
      ensures Eval(BlockMissing(c, os), rt, st).0 == rt.call(rt.blockHelperMissing, [v], a)
    {
      assert Eval(c, rt, st).0 == v;
      EvalOptionsMeans(os, a, rt, Eval(c, rt, st).1);
    }
  }

  lemma RunBlockValue<V(!new)>(s: State, base: seq<Slot>, y: Slot, v: V, name: string, g: Option<nat>, h: Option<nat>,
                               o: Options, rt: Runtime<V>) returns (t: State, z: Slot)
    requires OneMode(o) && s.inlineStack == base + [y] && Means(y.code, v, rt)
    ensures Run(s, [PushProgram(g), PushProgram(h), EmptyHash(false), BlockValue(name)], o) == Some(t)
    ensures t == s.(inlineStack := base + [z])
    ensures Means(z.code, rt.call(rt.blockHelperMissing, [v], AmbiguousOptions(name, g, h, o, rt)), rt)
  {
    hide Means, Run, OptionsMean, SetupParams, AmbiguousOptions, PopStack;
    var s1, u := RunBlockArguments(s, name, g, h, o, rt);
    PopTop(s, base, y);
    BlockMissingMeans(y.code, v, u.options, AmbiguousOptions(name, g, h, o, rt), rt);
    z := Inline(BlockMissing(y.code, u.options));
    t := s.(inlineStack := base + [z]);
    RunThen(s, [PushProgram(g), PushProgram(h), EmptyHash(false)], s1, [BlockValue(name)], o);
    RunOne(s1, BlockValue(name), o);
    assert [PushProgram(g), PushProgram(h), EmptyHash(false)] + [BlockValue(name)] ==
           [PushProgram(g), PushProgram(h), EmptyHash(false), BlockValue(name)];
  }

  function BlockLines(c: Code, name: string): seq<Line> {
    [SetTmp(1, c), BlockFix(Some(name), Tmp(1)), AppendIfNotNull(Tmp(1))]
  }

  lemma BlockLinesAdd<V(!new)>(name: string, n: Code, v: V, c: CallOptions, a: CallArguments<V>, rt: Runtime<V>)
    requires Means(n, v, rt) && OptionsMean(c, a, rt)
    ensures Adds(BlockLines(AmbiguousCall(name, n, c, true), name),
                 AmbiguousBlock(rt, name, CallAmbiguous(rt, name, v, a), a), rt)
  {
    hide Means, OptionsMean, CallAmbiguous;
    var call := AmbiguousCall(name, n, c, true);
    forall st: Store<V>, out: seq<Item<V>>
      ensures Exec(BlockLines(call, name), rt, st, out).1 ==
              out + AmbiguousBlock(rt, name, CallAmbiguous(rt, name, v, a), a)
    {
      AmbiguousMeans(name, n, v, c, a, true, rt, st);
      ExecBlockLines(call, name, CallAmbiguous(rt, name, v, a), a, rt, st, out);
    }
  }

  /** The three lines on one store: the variable they set is the one they read back. */
  lemma ExecBlockLines<V>(call: Code, name: string, v: V, a: CallArguments<V>, rt: Runtime<V>, st: Store<V>,
                          out: seq<Item<V>>)
    requires Eval(call, rt, st).0 == v && Eval(call, rt, st).1.options == Some(a)
    ensures Exec(BlockLines(call, name), rt, st, out).1 == out + AmbiguousBlock(rt, name, v, a)
  {
    var st1 := Eval(call, rt, st).1;
    var st2 := st1.(tmps := st1.tmps[1 := v]);
    var (st3, out3) := ExecLine(BlockFix(Some(name), Tmp(1)), rt, st2, out);
    var lines := BlockLines(call, name);
    assert lines == [lines[0]] + ([lines[1]] + [lines[2]]);
    TmpReads(rt, st2, v);
    var w := if rt.truthy(rt.helper(name)) then v else rt.call(rt.blockHelperMissing, [v], a);
    TmpReads(rt, st3, w);
    hide Eval;
    ExecOne(lines[0], rt, st, out);
    ExecAppend([lines[0]], [lines[1]] + [lines[2]], rt, st, out);
    ExecOne(lines[1], rt, st2, out);
    ExecAppend([lines[1]], [lines[2]], rt, st2, out);
    ExecOne(lines[2], rt, st3, out);
  }

  lemma TmpReads<V>(rt: Runtime<V>, st: Store<V>, v: V)
    requires 1 in st.tmps && st.tmps[1] == v
    ensures Eval(Tmp(1), rt, st) == (v, st)
  {
  }

  lemma SourceTwice(s: State, a: seq<Line>, b: seq<Line>)
    ensures PushSource(PushSource(s, a), b) == PushSource(s, a + b)
  {
    assert s.lines + Pending(s) + a + b == s.lines + Pending(s) + (a + b);
  }

  /** ambiguousBlockValue flushes the call into a variable; append takes the variable off again. */
  lemma RunAmbiguousBlock<V(!new)>(s: State, name: string, c: Code, g: Option<nat>, h: Option<nat>, o: Options,
                                   rt: Runtime<V>)
    returns (t: State)
    requires OneMode(o) && s.inlineStack == [Inline(c)] && Clean(s.(inlineStack := [])) && s.lastHelper == Some(name)
    ensures Run(s, [PushProgram(g), PushProgram(h), EmptyHash(false), AmbiguousBlockValue] + [Append], o) == Some(t)
    ensures Clean(t) && t == PushSource(s, BlockLines(c, name)).(inlineStack := [], stackVars := t.stackVars)
  {
    hide Run, OptionsMean, SetupParams, AmbiguousOptions;
    var s1, u := RunBlockArguments(s, "", g, h, o, rt);
    var args := [PushProgram(g), PushProgram(h), EmptyHash(false)];
    var s2 := IncrStack(s.(inlineStack := []));
    var s3 := PushSource(s2, [SetTmp(1, c)]).(compileStack := [Inline(Tmp(1))]);
    FlushOne(s, c);
    var s4 := PushSource(s3, [BlockFix(Some(name), Tmp(1))]);
    RunThen(s, args, s1, [AmbiguousBlockValue], o);
    RunOne(s1, AmbiguousBlockValue, o);
    assert args + [AmbiguousBlockValue] == [PushProgram(g), PushProgram(h), EmptyHash(false), AmbiguousBlockValue];
    RunThen(s, args + [AmbiguousBlockValue], s4, [Append], o);
    RunOne(s4, Append, o);
    t := PushSource(s4.(compileStack := [], stackSlot := 0), [AppendIfNotNull(Tmp(1))]);
    SourceTwice(s2, [SetTmp(1, c)], [BlockFix(Some(name), Tmp(1))]);
    SourceTwice(s2, [SetTmp(1, c)] + [BlockFix(Some(name), Tmp(1))], [AppendIfNotNull(Tmp(1))]);
    assert [SetTmp(1, c)] + [BlockFix(Some(name), Tmp(1))] + [AppendIfNotNull(Tmp(1))] == BlockLines(c, name);
  }

  lemma FlushOne(s: State, c: Code)
    requires s.inlineStack == [Inline(c)] && Clean(s.(inlineStack := []))
    ensures FlushInline(s) == PushSource(IncrStack(s.(inlineStack := [])), [SetTmp(1, c)]).(compileStack :=
        [Inline(Tmp(1))])
  {
    var u := PushSource(IncrStack(s.(inlineStack := [])), [SetTmp(1, c)]).(compileStack := [Inline(Tmp(1))]);
    assert s.inlineStack[1..] == [] && [] + [Inline(Tmp(1))] == [Inline(Tmp(1))];
    assert FlushEntries(u, []) == u;
  }

  /** An ambiguous block without programs never sets the options it would hand to blockHelperMissing: see
      BlockPrintsIff. */
  predicate FitsBlock(p: Path, params: seq<Expr>, hash: Hash, isBlock: bool, o: Options, bp: Scope) {
    isBlock || !PerhapsHelper(o, bp, p, params != [] || hash != NoHash)
  }

  lemma {:induction false} RunBlock<V(!new)>(s: State, p: Path, params: seq<Expr>, hash: Hash, g: Option<nat>,
                                             h: Option<nat>,
                                             items: seq<Item<V>>, o: Options, bp: Scope, rt: Runtime<V>)
                                             returns (t: State)
    requires OneMode(o) && PlainExprs(params) && PlainHash(hash) && Clean(s) && Outputs(s, items, rt)
    requires FitsBlock(p, params, hash, g.Some? || h.Some?, o, bp)
    ensures Run(s, EmitBlock(p, params, hash, g, h, o, bp), o) == Some(t) && Clean(t)
    ensures Outputs(t, items + DenoteBlock(p, params, hash, g, h, o, bp, rt), rt) && PrintsOnce(s, t)
  {
    hide Run, Means, Outputs, ClassifySexpr, SurelyHelper, PerhapsHelper, EmitPath, DenotePath, EmitAmbiguous,
         EmitArguments, EmitInvoke, DenoteCall, AmbiguousOptions, OptionsMean, CallAmbiguous, PrintsOnce;
    KindIff(o, bp, p, HelperExpression(false, params, hash));
    match ClassifySexpr(o, bp, p, HelperExpression(false, params, hash))
    case Helper =>
      var s1, y := RunHelper(s, p, params, hash, g, h, o, bp, rt);
      t := BlockAppends(s, s1, EmitArguments(params, g, h, hash, false, o, bp) + EmitInvoke(p, |params|, o, bp), y,
        DenoteCall(p, DenoteParams(params, o, bp, rt), DenoteHash(hash, false, o, bp, rt), g, h, o, bp, rt), items, o,
        rt);
    case Simple =>
      var v := rt.lambda(DenotePath(p, false, bp, rt));
      var s0, x := RunPath(s, p, false, true, o, bp, rt);
      var s1, y := RunLambda(s, s0, x, EmitPath(p, false, true, bp), DenotePath(p, false, bp, rt), o, rt);
      var s2, z := RunBlockValue(s1, [], y, v, p.original, g, h, o, rt);
      var rest := [PushProgram(g), PushProgram(h), EmptyHash(false), BlockValue(p.original)];
      RunThen(s, EmitPath(p, false, true, bp) + [ResolvePossibleLambda], s1, rest, o);
      assert EmitPath(p, false, true, bp) + [ResolvePossibleLambda] + rest ==
             EmitPath(p, false, true, bp) + ([ResolvePossibleLambda] + rest);
      assert [ResolvePossibleLambda] + rest ==
        [ResolvePossibleLambda, PushProgram(g), PushProgram(h), EmptyHash(false), BlockValue(p.original)];
      t := BlockAppends(s, s2, EmitPath(p, false, true, bp) + ([ResolvePossibleLambda] + rest), z,
        rt.call(rt.blockHelperMissing, [v], AmbiguousOptions(p.original, g, h, o, rt)), items, o, rt);
    case Ambiguous =>
      var s1, y, n, u := PathThenAmbiguous(s, p, g, h, o, bp, rt);
      var name := HeadName(p);
      t := RunAmbiguousBlock(s1, name, y.code, g, h, o, rt);
      var rest := [PushProgram(g), PushProgram(h), EmptyHash(false), AmbiguousBlockValue];
      RunThen(s, EmitAmbiguous(p, g, h, bp), s1, rest + [Append], o);
      assert EmitAmbiguous(p, g, h, bp) + (rest + [Append]) == EmitAmbiguous(p, g, h, bp) + rest + [Append];
      BlockLinesPrint(s, s1, t, y.code, name);
      BlockLinesAdd(name, n, DenotePath(p, false, bp, rt), u.options, AmbiguousOptions(name, g, h, o, rt), rt);
      SameOutputs(s, s1, items, rt);
      SourceOutputs(s1, items, BlockLines(y.code, name),
                    AmbiguousBlock(rt, name, DenoteAmbiguous(p, g, h, o, bp, rt), AmbiguousOptions(name, g, h, o, rt)),
                    rt);
      SameOutputs(PushSource(s1, BlockLines(y.code, name)), t,
                  items + AmbiguousBlock(rt, name, DenoteAmbiguous(p, g, h, o, bp, rt),
                                         AmbiguousOptions(name, g, h, o, rt)), rt);
  }

  lemma BlockLinesPrint(s: State, s1: State, t: State, c: Code, name: string)
    requires s.lines == s1.lines && s.pendingContent == s1.pendingContent
    requires t == PushSource(s1, BlockLines(c, name)).(inlineStack := [], stackVars := t.stackVars)
    ensures PrintsOnce(s, t)
  {
  }

  /** Opcodes that leave one entry, followed by `append`. */
  lemma BlockAppends<V(!new)>(s: State, s1: State, ops: seq<Opcode>, y: Slot, v: V, items: seq<Item<V>>, o: Options,
                              rt: Runtime<V>)
    returns (t: State)
    requires Clean(s) && Outputs(s, items, rt) && Run(s, ops, o) == Some(s1) && PushesOne(s, s1, y) &&
             Means(y.code, v, rt)
    ensures Run(s, ops + [Append], o) == Some(t) && Clean(t)
    ensures Outputs(t, items + [Value(OrEmptyText(rt, v))], rt) && PrintsOnce(s, t)
  {
    hide Run, Means, Outputs;
    SameOutputs(s, s1, items, rt);
    t := RunAppend1(s1, y, v, items, o, rt);
    RunThen(s, ops, s1, [Append], o);
  }

  // ---------- Partials ----------

  lemma PartialCallMeans<V(!new)>(p: Code, pv: V, c: Code, cv: V, os: CallOptions, a: CallArguments<V>, indent: string,
                                  rt: Runtime<V>)
    requires Means(p, pv, rt) && Means(c, cv, rt) && OptionsMean(os, a, rt)
    ensures Means(PartialCall(p, c, os, indent), rt.invokePartial(pv, cv, a, indent), rt)
  {
    hide OptionsMean, EvalOptions;
    forall st: Store<V>
      ensures Eval(PartialCall(p, c, os, indent), rt, st).0 == rt.invokePartial(pv, cv, a, indent)
    {
      var (x, st1) := Eval(p, rt, st);
      assert x == pv;
      var (y, st2) := Eval(c, rt, st1);
      assert y == cv;
      EvalOptionsMeans(os, a, rt, st2);
    }
  }

  lemma NamedMeans<V(!new)>(name: string, rt: Runtime<V>)
    ensures Means(NamedPartial(name), rt.partial(name), rt)
  {
  }

  /** The stack below the arguments of a partial: the entry of a dynamic name, if there is one. */
  function CalleeSlots(partial: PartialName, x: Slot): seq<Slot> { if partial.Dynamic? then [x] else [] }

  lemma RunInvokePartial<V(!new)>(s: State, base: seq<Slot>, q: Pushed, d: Denoted<V>, hash: Denoted<V>, g: Option<nat>,
                                  partial: PartialName, x: Slot, pv: V, indent: string, o: Options, rt: Runtime<V>)
    returns (t: State, y: Slot)
    requires OneMode(o) && PushedArgs(q.xs, q.args, o) && PushedArg(q.hs, q.hash, o)
    requires |q.args| == 1 && ArgMeans(q.args[0], d, rt) && ArgMeans(q.hash, hash, rt)
    requires s.inlineStack == base + CalleeSlots(partial, x) + q.xs + [Lit(ProgramCode(g)), Lit(ProgramCode(None))] +
             q.hs
    requires if partial.Dynamic? then Means(x.code, pv, rt) else pv == rt.partial(partial.name)
    ensures Run(s, [InvokePartial(partial.Dynamic?, CalleeName(partial), indent)], o) == Some(t)
    ensures t == s.(inlineStack := base + [y])
    ensures Means(y.code, rt.invokePartial(pv, d.value, DenoteOptions(CalleeName(partial), [d], hash, g, None, o, rt),
                                           indent), rt)
  {
    hide Means, Run, PushedArg, PushedArgs, SetupParams, OptionsMean, DenoteOptions, MeansAll, Picked, Each, PopStack;
    var op := InvokePartial(partial.Dynamic?, CalleeName(partial), indent);
    var u := SetupMeans(s, base + CalleeSlots(partial, x), q, CalleeName(partial), [], [d], hash, g, None, o, rt);
    var rest := s.(inlineStack := base);
    var callee := if partial.Dynamic? then x.code else NamedPartial(partial.name);
    if partial.Dynamic? {
      PopTop(u.rest, base, x);
    } else {
      NamedMeans(partial.name, rt);
      assert base + [] == base;
      PopUnused(u.rest);
    }
    PartialCallMeans(callee, pv, q.args[0].param, d.value, u.options,
                     DenoteOptions(CalleeName(partial), [d], hash, g, None, o, rt), indent, rt);
    RunOne(s, op, o);
    y := Inline(PartialCall(callee, q.args[0].param, u.options, indent));
    t := Push(rest, y);
  }

  /** A partial without parameters under explicitPartialContext works only by name and without
      ids and types: see OneModeCompilesIff and ExplicitContextIff. */
  predicate FitsPartial(partial: PartialName, params: seq<Expr>, o: Options) {
    && |params| <= 1
    && (params == [] && o.explicitPartialContext ==> partial.Named? && Width(o) == 1)
  }

  predicate PartialState(s: State, t: State, partial: PartialName, x: Slot, g: Option<nat>, q: Pushed) {
    t == s.(inlineStack := s.inlineStack + CalleeSlots(partial, x) + q.xs +
            [Lit(ProgramCode(g)), Lit(ProgramCode(None))] + q.hs,
            stackVars := t.stackVars, lastContext := t.lastContext)
  }

  function PartialHead(partial: PartialName, params: seq<Expr>, hash: Hash, g: Option<nat>, o: Options,
                       bp: Scope): seq<Opcode> {
    (if params == [] && o.explicitPartialContext then [PushLiteral(Undefined)] else []) +
    (if partial.Dynamic? then EmitExpr(partial.call, o, bp) else []) +
    EmitArguments(PartialParams(params, o), g, None, hash, true, o, bp)
  }

  const NOWHERE := Path(false, 0, [], "")

  lemma RunExplicitContext<V(!new)>(s: State, partial: PartialName, hash: Hash, g: Option<nat>, x: Slot, o: Options,
                                    bp: Scope, rt: Runtime<V>)
    returns (t: State, q: Pushed)
    requires Width(o) == 1 && PlainHash(hash) && Ready(s) && partial.Named? && o.explicitPartialContext
    ensures Run(s, PartialHead(partial, [], hash, g, o, bp), o) == Some(t) && PartialState(s, t, partial, x, g, q)
    ensures PushedArgs(q.xs, q.args, o) && PushedArg(q.hs, q.hash, o) && |q.args| == 1
    ensures ArgMeans(q.args[0], PartialContext([], o, bp, rt), rt) &&
            ArgMeans(q.hash, DenoteHash(hash, true, o, bp, rt), rt)
  {
    hide Means, Run, PushedArg, ArgOf, EmitParams, EmitHash, DenoteHash, PlainHash;
    var slot := LiteralSlot(Undefined);
    var s1 := Push(s, slot);
    RunOne(s, PushLiteral(Undefined), o);
    var p := RunArguments(s1, SubExpression(NOWHERE, [], hash), [], hash, true, g, None, o, bp, rt);
    var ops := EmitArguments([], g, None, hash, true, o, bp);
    RunThen(s, [PushLiteral(Undefined)], s1, ops, o);
    assert [PushLiteral(Undefined)] + [] + ops == [PushLiteral(Undefined)] + ops;
    var a := Arg(Atomic(Text(Undefined)), Atomic(Absent), Atomic(Absent), Atomic(Absent));
    SinglePushed(slot, a, o);
    AtomMeans(Text(Undefined), rt);
    AtomMeans(Absent, rt);
    t, q := p.state, p.(xs := [slot], args := [a]);
    var gs := [Lit(ProgramCode(g)), Lit(ProgramCode(None))];
    assert s.inlineStack + [slot] + ([] + gs + p.hs) == s.inlineStack + [] + [slot] + gs + p.hs;
  }

  lemma SinglePushed(x: Slot, a: Arg, o: Options)
    requires Width(o) == 1 && a == Arg(x.code, Atomic(Absent), Atomic(Absent), Atomic(Absent))
    ensures PushedArgs([x], [a], o)
  {
    PushedSingle([x], a, o);
  }

  lemma RunCallee<V(!new)>(s: State, partial: PartialName, o: Options, bp: Scope, rt: Runtime<V>)
    returns (t: State, x: Slot)
    requires OneMode(o) && Ready(s) && (partial.Dynamic? ==> PlainExpr(partial.call))
    ensures Run(s, [] + if partial.Dynamic? then EmitExpr(partial.call, o, bp) else [], o) == Some(t)
    ensures Pushes(s, t, CalleeSlots(partial, x))
    ensures partial.Dynamic? ==> Means(x.code, Denote(partial.call, o, bp, rt), rt)
  {
    hide Means, Run, EmitExpr, Denote;
    if partial.Dynamic? {
      t, x := RunExpr(s, partial.call, o, bp, rt);
      assert [] + EmitExpr(partial.call, o, bp) == EmitExpr(partial.call, o, bp);
    } else {
      t, x := s, LiteralSlot(Null);
      var none: seq<Opcode> := [];
      assert none + none == none && s.inlineStack + [] == s.inlineStack;
      RunNothing(s, o);
    }
  }

  lemma RunPartialHead<V(!new)>(s: State, partial: PartialName, params: seq<Expr>, hash: Hash, g: Option<nat>,
                                o: Options, bp: Scope, rt: Runtime<V>)
    returns (t: State, x: Slot, q: Pushed)
    requires OneMode(o) && FitsPartial(partial, params, o) && PlainExprs(params) && PlainHash(hash) && Ready(s)
    requires partial.Dynamic? ==> PlainExpr(partial.call)
    ensures Run(s, PartialHead(partial, params, hash, g, o, bp), o) == Some(t) && PartialState(s, t, partial, x, g, q)
    ensures PushedArgs(q.xs, q.args, o) && PushedArg(q.hs, q.hash, o) && |q.args| == 1
    ensures ArgMeans(q.args[0], PartialContext(params, o, bp, rt), rt) &&
            ArgMeans(q.hash, DenoteHash(hash, true, o, bp, rt), rt)
    ensures partial.Dynamic? ==> Means(x.code, Denote(partial.call, o, bp, rt), rt)
  {
    hide Means, Run, PushedArg, PushedArgs, EmitParams, EmitHash, DenoteHash, PlainHash, EmitExpr, Denote, DenoteParam,
         ArgMeans;
    if params == [] && o.explicitPartialContext {
      x := LiteralSlot(Null);
      t, q := RunExplicitContext(s, partial, hash, g, x, o, bp, rt);
    } else {
      var ps := PartialParams(params, o);
      PartialParamsFit(params, o);
      var s1;
      s1, x := RunCallee(s, partial, o, bp, rt);
      q := RunArguments(s1, SubExpression(NOWHERE, ps, hash), ps, hash, true, g, None, o, bp, rt);
      t := q.state;
      RunThen(s, [] + if partial.Dynamic? then EmitExpr(partial.call, o, bp)
              else [], s1, EmitArguments(ps, g, None, hash, true, o, bp), o);
      var gs := [Lit(ProgramCode(g)), Lit(ProgramCode(None))];
      assert s1.inlineStack + (q.xs + gs + q.hs) == s1.inlineStack + q.xs + gs + q.hs;
    }
  }

  lemma PartialParamsFit(params: seq<Expr>, o: Options)
    requires |params| <= 1 && PlainExprs(params) && !(params == [] && o.explicitPartialContext)
    ensures |PartialParams(params, o)| == 1 && PlainExprs(PartialParams(params, o))
  {
  }

  lemma RunIndent<V(!new)>(s: State, indent: string, items: seq<Item<V>>, o: Options, rt: Runtime<V>) returns (t: State)
    requires Outputs(s, items, rt)
    ensures Run(s, if o.preventIndent && indent != "" then [AppendContent(indent)] else [], o) == Some(t)
    ensures t == s.(pendingContent := s.pendingContent + if o.preventIndent then indent else "")
    ensures Outputs(t, items + if o.preventIndent then Chars(indent) else [], rt)
  {
    hide Run, Outputs;
    if o.preventIndent && indent != "" {
      RunOne(s, AppendContent(indent), o);
      ContentOutputs(s, items, indent, rt);
      t := s.(pendingContent := s.pendingContent + indent);
    } else {
      RunNothing(s, o);
      t := s;
      assert items + [] == items && s.pendingContent + "" == s.pendingContent;
    }
  }

  /** An indent that is printed by itself comes as text before the partial. */
  function Indented(s: State, indent: string, o: Options): State {
    s.(pendingContent := s.pendingContent + if o.preventIndent then indent else "")
  }

  lemma RunPartial<V(!new)>(s: State, partial: PartialName, params: seq<Expr>, hash: Hash, g: Option<nat>,
                            indent: string,
                            items: seq<Item<V>>, o: Options, bp: Scope, rt: Runtime<V>) returns (t: State)
    requires OneMode(o) && FitsPartial(partial, params, o) && PlainExprs(params) && PlainHash(hash) && Clean(s)
    requires (partial.Dynamic? ==> PlainExpr(partial.call)) && Outputs(s, items, rt)
    ensures Run(s, EmitPartial(partial, params, hash, g, indent, o, bp), o) == Some(t) && Clean(t)
    ensures Outputs(t, items + DenotePartial(partial, params, hash, g, indent, o, bp, rt), rt)
    ensures PrintsOnce(Indented(s, indent, o), t)
  {
    hide Means, Run, Outputs, PushedArg, PushedArgs, EmitParams, EmitHash, DenoteHash, EmitExpr, Denote, DenoteOptions,
         ArgMeans, EmitArguments, PartialContext,
         DenoteCallee, OrEmptyText, Chars, PartialParams, PrintsOnce;
    var head := PartialHead(partial, params, hash, g, o, bp);
    var s1, x, q := RunPartialHead(s, partial, params, hash, g, o, bp, rt);
    SameOutputs(s, s1, items, rt);
    var content := if o.preventIndent && indent != "" then [AppendContent(indent)] else [];
    var s2 := RunIndent(s1, indent, items, o, rt);
    RunThen(s, head, s1, content, o);
    var more := if o.preventIndent then Chars<V>(indent) else [];
    var context, inner := PartialContext(params, o, bp, rt), if o.preventIndent then "" else indent;
    CalleeMeans(partial, x, o, bp, rt);
    var v;
    t, v := RunPartialEnd(s2, q, context, DenoteHash(hash, true, o, bp, rt), g, partial, x,
                          DenoteCallee(partial, o, bp, rt), inner,
                          items + more, o, rt);
    SamePrints(s2, Indented(s, indent, o), t);
    var ops := [InvokePartial(partial.Dynamic?, CalleeName(partial), inner), Append];
    RunThen(s, head + content, s2, ops, o);
    assert EmitPartial(partial, params, hash, g, indent, o, bp) == head + content + ops;
    assert items + (more + [Value(OrEmptyText(rt, v))]) == items + more + [Value(OrEmptyText(rt, v))];
  }

  lemma CalleeMeans<V(!new)>(partial: PartialName, x: Slot, o: Options, bp: Scope, rt: Runtime<V>)
    requires partial.Dynamic? ==> Means(x.code, Denote(partial.call, o, bp, rt), rt)
    ensures partial.Dynamic? ==> Means(x.code, DenoteCallee(partial, o, bp, rt), rt)
    ensures partial.Named? ==> DenoteCallee(partial, o, bp, rt) == rt.partial(partial.name)
  {
    hide Means, Denote;
  }

  lemma SamePrints(s: State, s1: State, t: State)
    requires PrintsOnce(s, t) && s.lines == s1.lines && s.pendingContent == s1.pendingContent
    ensures PrintsOnce(s1, t)
  {
  }

  /** The call of a partial whose callee and arguments are all there is on the stack. */
  lemma RunPartialEnd<V(!new)>(s: State, q: Pushed, d: Denoted<V>, hash: Denoted<V>, g: Option<nat>,
                               partial: PartialName, x: Slot, pv: V,
                               indent: string, items: seq<Item<V>>, o: Options, rt: Runtime<V>) returns (t: State, v: V)
    requires OneMode(o) && PushedArgs(q.xs, q.args, o) && PushedArg(q.hs, q.hash, o)
    requires |q.args| == 1 && ArgMeans(q.args[0], d, rt) && ArgMeans(q.hash, hash, rt)
    requires s.inlineStack == [] + CalleeSlots(partial, x) + q.xs + [Lit(ProgramCode(g)), Lit(ProgramCode(None))] + q.hs
    requires if partial.Dynamic? then Means(x.code, pv, rt) else pv == rt.partial(partial.name)
    requires Clean(s.(inlineStack := [])) && Outputs(s, items, rt)
    ensures v == rt.invokePartial(pv, d.value, DenoteOptions(CalleeName(partial), [d], hash, g, None, o, rt), indent)
    ensures Run(s, [InvokePartial(partial.Dynamic?, CalleeName(partial), indent), Append], o) == Some(t) && Clean(t)
    ensures Outputs(t, items + [Value(OrEmptyText(rt, v))], rt) && PrintsOnce(s, t)
  {
    hide Means, Run, Outputs, PushedArg, PushedArgs, DenoteOptions, ArgMeans, OrEmptyText, PrintsOnce;
    var s1, y := RunInvokePartial(s, [], q, d, hash, g, partial, x, pv, indent, o, rt);
    v := rt.invokePartial(pv, d.value, DenoteOptions(CalleeName(partial), [d], hash, g, None, o, rt), indent);
    SameOutputs(s, s1, items, rt);
    t := RunAppend1(s1, y, v, items, o, rt);
    var op := InvokePartial(partial.Dynamic?, CalleeName(partial), indent);
    RunThen(s, [op], s1, [Append], o);
    assert [op] + [Append] == [op, Append];
    SamePrints(s1, s, t);
  }

  // ---------- Decorators ----------

  /** A decorator registers one call with its own arguments and prints nothing. */
  lemma RunDecorator<V(!new)>(s: State, p: Path, params: seq<Expr>, hash: Hash, g: Option<nat>, items: seq<Item<V>>,
                              o: Options, bp: Scope, rt: Runtime<V>) returns (t: State, u: Setup)
    requires OneMode(o) && PlainExprs(params) && PlainHash(hash) && Clean(s) && Outputs(s, items, rt)
    ensures Run(s, EmitArguments(params, g, None, hash, false, o, bp) + [RegisterDecorator(|params|, p.original)], o) ==
            Some(t)
    ensures Clean(t) && Outputs(t, items, rt) && t.lines == s.lines && t.pendingContent == s.pendingContent
    ensures t.decorators == s.decorators + [KnownCall(p.original, Picked(u.args, ValuePart), u.options)]
    ensures MeansAll(Picked(u.args, ValuePart), Each(DenoteParams(params, o, bp, rt), ValuePart), rt)
    ensures OptionsMean(u.options, DenoteOptions(p.original, DenoteParams(params, o, bp, rt),
                                                 DenoteHash(hash, false, o, bp, rt), g, None, o, rt), rt)
  {
    hide Means, Run, Outputs, PushedArg, PushedArgs, ArgOf, ArgMeans, EmitParams, EmitHash, DenoteHash, DenoteParam,
         SetupParams, OptionsMean,
         MeansAll, Picked, Each, DenoteOptions;
    var q := RunArguments(s, SubExpression(p, params, hash), params, hash, false, g, None, o, bp, rt);
    var ds := DenoteParams(params, o, bp, rt);
    ArgsMean(q.args, params, o, bp, rt);
    var gs := [Lit(ProgramCode(g)), Lit(ProgramCode(None))];
    assert s.inlineStack + (q.xs + gs + q.hs) == [] + q.xs + gs + q.hs;
    u := SetupMeans(q.state, [], q, p.original, params, ds, DenoteHash(hash, false, o, bp, rt), g, None, o, rt);
    t := u.rest.(decorators := s.decorators + [KnownCall(p.original, Picked(u.args, ValuePart), u.options)]);
    RunThen(s, EmitArguments(params, g, None, hash, false, o, bp), q.state, [RegisterDecorator(|params|, p.original)],
            o);
    RunOne(q.state, RegisterDecorator(|params|, p.original), o);
    SameOutputs(s, t, items, rt);
  }

  // ---------- Statements, bodies and programs ----------

  /** What the theorem asks of a statement: only hash keys an array holds, one of the two programs
      in an ambiguous block (the parser always makes one), and a partial that fits. */
  predicate Fits(s: Statement, o: Options, bp: Scope) {
    match s
    case MustacheStatement(_, params, hash, _) => PlainExprs(params) && PlainHash(hash)
    case BlockStatement(p, params, hash, program, inverse) =>
      PlainExprs(params) && PlainHash(hash) && FitsBlock(p, params, hash, program.Some? || inverse.Some?, o, bp)
    case PartialStatement(partial, params, hash, _, _) =>
      && PlainExprs(params) && PlainHash(hash) && FitsPartial(partial, params, o)
      && (partial.Dynamic? ==> PlainExpr(partial.call))
    case Decorator(_, params, hash, _) => PlainExprs(params) && PlainHash(hash)
    case _ => true
  }

  lemma RunMustacheStatement<V(!new)>(s: State, p: Path, params: seq<Expr>, hash: Hash, escaped: bool,
                                      items: seq<Item<V>>,
                                      o: Options, bp: Scope, guid: nat, rt: Runtime<V>) returns (t: State)
    requires OneMode(o) && PlainExprs(params) && PlainHash(hash) && Clean(s) && Outputs(s, items, rt)
    ensures var m := MustacheStatement(p, params, hash, escaped);
            Run(s, EmitStatement(m, o, bp, guid).opcodes, o) == Some(t) && Clean(t) &&
            Outputs(t, items + DenoteStatement(m, o, bp, guid, rt), rt) && PrintsOnce(s, t)
  {
    hide Run, Means, Outputs, EmitMustache, DenoteMustache;
    var s1, y := RunMustache(s, p, params, hash, o, bp, rt);
    SameOutputs(s, s1, items, rt);
    var v := DenoteMustache(p, params, hash, o, bp, rt);
    var ops := EmitMustache(p, params, hash, o, bp);
    if escaped && !o.noEscape {
      RunThen(s, ops, s1, [AppendEscaped], o);
      t := RunAppendEscaped(s1, y, v, items, o, rt);
    } else {
      RunThen(s, ops, s1, [Append], o);
      t := RunAppend1(s1, y, v, items, o, rt);
    }
  }

  /** Every statement runs, leaves the stacks and the variables as it found them, and prints what it denotes. */
  lemma RunStatement<V(!new)>(s: State, m: Statement, items: seq<Item<V>>, o: Options, bp: Scope, guid: nat,
                              rt: Runtime<V>)
    returns (t: State)
    requires OneMode(o) && Fits(m, o, bp) && Clean(s) && Outputs(s, items, rt)
    ensures Run(s, EmitStatement(m, o, bp, guid).opcodes, o) == Some(t) && Clean(t)
    ensures Outputs(t, items + DenoteStatement(m, o, bp, guid, rt), rt)
  {
    hide Run, Outputs, EmitMustache, EmitBlock, EmitPartial, EmitArguments, DenoteBlock, DenotePartial, PlainExprs,
         PlainHash, OptionsMean, MeansAll;
    match m
    case MustacheStatement(p, params, hash, escaped) =>
      t := RunMustacheStatement(s, p, params, hash, escaped, items, o, bp, guid, rt);
    case BlockStatement(p, params, hash, program, inverse) =>
      t := RunBlock(s, p, params, hash, Guid(program, guid), Guid(inverse, guid + if program.Some? then 1 else 0),
                    items, o, bp, rt);
    case PartialStatement(partial, params, hash, program, indent) =>
      t := RunPartial(s, partial, params, hash, Guid(program, guid), indent, items, o, bp, rt);
    case Decorator(p, params, hash, program) =>
      var u;
      t, u := RunDecorator(s, p, params, hash, Guid(program, guid), items, o, bp, rt);
      assert items + [] == items;
    case ContentStatement(content) =>
      t := s.(pendingContent := s.pendingContent + content);
      ContentOutputs(s, items, content, rt);
      if content == "" {
        RunNothing(s, o);
        assert s.pendingContent + content == s.pendingContent;
      } else {
        RunOne(s, AppendContent(content), o);
      }
    case CommentStatement =>
      t := s;
      RunNothing(s, o);
      assert items + [] == items;
  }

  predicate FitsBody(body: seq<Statement>, o: Options, bp: Scope) { forall i :: 0 <= i < |body| ==>
    Fits(body[i], o, bp) }

  lemma {:induction false} RunBody<V(!new)>(s: State, body: seq<Statement>, items: seq<Item<V>>, o: Options, bp: Scope,
                                            guid: nat, rt: Runtime<V>)
    returns (t: State)
    requires OneMode(o) && FitsBody(body, o, bp) && Clean(s) && Outputs(s, items, rt)
    ensures Run(s, EmitBody(body, o, bp, guid).opcodes, o) == Some(t) && Clean(t)
    ensures Outputs(t, items + DenoteBody(body, o, bp, guid, rt), rt)
    decreases |body|
  {
    hide Run, Outputs, EmitStatement, DenoteStatement, Fits;
    if body == [] {
      t := s;
      RunNothing(s, o);
      assert items + [] == items;
    } else {
      var first := EmitStatement(body[0], o, bp, guid);
      var s1 := RunStatement(s, body[0], items, o, bp, guid, rt);
      var more := DenoteStatement(body[0], o, bp, guid, rt);
      t := RunBody(s1, body[1..], items + more, o, bp, guid + |first.children|, rt);
      RunThen(s, first.opcodes, s1, EmitBody(body[1..], o, bp, guid + |first.children|).opcodes, o);
      var rest := DenoteBody(body[1..], o, bp, guid + |first.children|, rt);
      assert items + more + rest == items + (more + rest);
    }
  }

  /** The lines of a finished program: `pushSource('')` flushes the pending text. */
  function Finished(s: State): seq<Line> { PushSource(s, []).lines }

  /** Compiling a program is correct: its opcodes run without underflow, nothing is left on the
      stacks, and its lines print what its body denotes, under every run-time and whatever the
      variables hold at the start. */
  lemma CompileCorrect<V(!new)>(p: Program, o: Options, bp: Scope, rt: Runtime<V>) returns (t: State)
    requires OneMode(o) && FitsBody(p.body, o, [p.blockParams] + bp)
    ensures Run(INITIAL, CompileProgram(p, o, bp).opcodes, o) == Some(t) && Clean(t)
    ensures forall st: Store<V> :: Exec(Finished(t), rt, st, []).1 == DenoteBody(p.body, o, [p.blockParams] + bp, 0, rt)
  {
    hide Run, Exec, DenoteBody, EmitBody;
    InitialOutputs(rt);
    var items := DenoteBody(p.body, o, [p.blockParams] + bp, 0, rt);
    t := RunBody(INITIAL, p.body, [], o, [p.blockParams] + bp, 0, rt);
    assert [] + items == items;
    forall st: Store<V>
      ensures Exec(Finished(t), rt, st, []).1 == items
    {
      assert Finished(t) == t.lines + Pending(t);
    }
  }

  lemma InitialOutputs<V(!new)>(rt: Runtime<V>)
    ensures Outputs(INITIAL, [], rt)
  {
    assert INITIAL.lines + Pending(INITIAL) == [];
  }

  // ---------- Nested programs ----------

  /** The programs a statement compiles, in the order it compiles them. */
  function Nested(m: Statement): seq<Program> {
    match m
    case BlockStatement(_, _, _, program, inverse) => OptionalProgram(program) + OptionalProgram(inverse)
    case PartialStatement(_, _, _, program, _) => OptionalProgram(program)
    case Decorator(_, _, _, program) => OptionalProgram(program)
    case _ => []
  }

  function OptionalProgram(p: Option<Program>): seq<Program> { if p.Some? then [p.value] else [] }

  function NestedIn(body: seq<Statement>): seq<Program> {
    if body == [] then [] else Nested(body[0]) + NestedIn(body[1..])
  }

  function CompileAll(ps: seq<Program>, o: Options, bp: Scope): (r: seq<Environment>)
    ensures |r| == |ps|
  {
    if ps == [] then [] else [CompileProgram(ps[0], o, bp)] + CompileAll(ps[1..], o, bp)
  }

  lemma {:induction false} CompileAllConcat(a: seq<Program>, b: seq<Program>, o: Options, bp: Scope)
    ensures CompileAll(a + b, o, bp) == CompileAll(a, o, bp) + CompileAll(b, o, bp)
  {
    hide CompileProgram;
    if a == [] {
      assert a + b == b;
    } else {
      assert (a + b)[1..] == a[1..] + b;
      CompileAllConcat(a[1..], b, o, bp);
    }
  }

  lemma StatementChildren(m: Statement, o: Options, bp: Scope, guid: nat)
    ensures EmitStatement(m, o, bp, guid).children == CompileAll(Nested(m), o, bp)
  {
    hide CompileProgram, EmitMustache, EmitBlock, EmitPartial, EmitArguments;
    if m.BlockStatement? {
      CompileAllConcat(OptionalProgram(m.program), OptionalProgram(m.inverse), o, bp);
      OptionalChildren(m.inverse, o, bp);
    }
    if m.BlockStatement? || m.PartialStatement? || m.Decorator? {
      OptionalChildren(m.program, o, bp);
    }
  }

  lemma OptionalChildren(p: Option<Program>, o: Options, bp: Scope)
    ensures CompileOptional(p, o, bp) == CompileAll(OptionalProgram(p), o, bp)
  {
    hide CompileProgram;
    if p.Some? {
      assert [p.value][1..] == [];
    }
  }

  /** The children of a body are its nested programs in source order: the guid a statement pushes
      numbers its own program. */
  lemma {:induction false} ChildrenInOrder(body: seq<Statement>, o: Options, bp: Scope, guid: nat)
    ensures EmitBody(body, o, bp, guid).children == CompileAll(NestedIn(body), o, bp)
    decreases |body|
  {
    hide CompileProgram, EmitStatement;
    if body != [] {
      StatementChildren(body[0], o, bp, guid);
      ChildrenInOrder(body[1..], o, bp, guid + |EmitStatement(body[0], o, bp, guid).children|);
      CompileAllConcat(Nested(body[0]), NestedIn(body[1..]), o, bp);
    }
  }
}
