/** From the lines of a compiled program to the function that is built of them: merged
    runs for programs of several statements, returning lines for programs of one. */
module HandlebarsMerge {
  import opened Wrappers
  import opened HandlebarsCompiler
  import G = HandlebarsCodegen
  import opened HandlebarsSemantics
  import opened HandlebarsCorrect
  import opened HandlebarsOutput
  import M = MergeSource

  // ---------- Programs of several statements ----------

  /** appendToBuffer marks these lines; an append inside braces stays a line of its own. */
  predicate Marked(l: G.Line): (marked: bool)
    ensures marked <==> !l.SetTmp? && !l.BlockFix? && !l.AppendIfNotNull?
  {
    l.AppendLine? || l.AppendEscapedLine? || l.TextLine?
  }

  function Sources(lines: seq<G.Line>): (r: seq<M.Line<G.Line, G.Line>>)
    ensures |r| == |lines| && forall i :: 0 <= i < |r| ==> r[i] == if Marked(lines[i]) then M.Append(lines[i])
            else M.Plain(lines[i])
    decreases |lines|
  {
    if lines == [] then [] else
      var n := |lines| - 1;
      Sources(lines[..n]) + [if Marked(lines[n]) then M.Append(lines[n]) else M.Plain(lines[n])]
  }

  /** A chunk is the text it adds; a plain line adds its text and goes on. */
  function Buffering<V>(rt: Runtime<V>): M.Machine<G.Line, G.Line, Item<V>, Store<V>> {
    M.Machine((l: G.Line, st: Store<V>) => (ExecLine(l, rt, st, []).1, ExecLine(l, rt, st, []).0),
              (l: G.Line, st: Store<V>) => M.Going(ExecLine(l, rt, st, []).1, ExecLine(l, rt, st, []).0))
  }

  lemma ExecLineAppends<V>(l: G.Line, rt: Runtime<V>, st: Store<V>, out: seq<Item<V>>)
    ensures ExecLine(l, rt, st, out) == (ExecLine(l, rt, st, []).0, out + ExecLine(l, rt, st, []).1)
  {
    hide Eval, Chars;
    var added := ExecLine(l, rt, st, []).1;
    match l
    case AppendLine(code) =>
      assert added == [Value(Eval(code, rt, st).0)];
    case AppendEscapedLine(code) =>
      assert added == [Value(rt.escape(Eval(code, rt, st).0))];
    case TextLine(text) =>
      assert added == Chars(text);
    case SetTmp(_, _) =>
      assert added == [] && out + added == out;
    case BlockFix(_, _) =>
      assert added == [] && out + added == out;
    case AppendIfNotNull(code) =>
      assert out + [] == out;
      assert added == if rt.isNull(Eval(code, rt, st).0) then [] else [Value(Eval(code, rt, st).0)];
  }

  lemma {:induction false} SourcesInOrder<V>(lines: seq<G.Line>, rt: Runtime<V>, st: Store<V>)
    ensures M.InOrder(Sources(lines), Buffering(rt), st) == M.Going(Exec(lines, rt, st, []).1,
                                                                    Exec(lines, rt, st, []).0)
    decreases |lines|
  {
    hide Exec, ExecLine;
    if lines == [] {
      ExecNothing(rt, st, []);
    } else {
      var n := |lines| - 1;
      SourcesInOrder(lines[..n], rt, st);
      assert Sources(lines)[..n] == Sources(lines[..n]) && lines[..n] + [lines[n]] == lines;
      ExecAppend(lines[..n], [lines[n]], rt, st, []);
      var (st1, out1) := Exec(lines[..n], rt, st, []);
      ExecOne(lines[n], rt, st1, out1);
      ExecLineAppends(lines[n], rt, st1, out1);
      OneChunk(lines[n], rt, st1);
    }
  }

  lemma OneChunk<V>(l: G.Line, rt: Runtime<V>, st: Store<V>)
    ensures M.EvalRun([l], Buffering(rt), st) == (ExecLine(l, rt, st, []).1, ExecLine(l, rt, st, []).0)
  {
    hide ExecLine;
    assert [l][..0] == [];
    assert [] + ExecLine(l, rt, st, []).1 == ExecLine(l, rt, st, []).1;
  }

  function Returns(lines: seq<G.Line>): (r: seq<M.Line<G.Line, G.Line>>)
    ensures |r| == |lines| && M.Simple(r) && forall i :: 0 <= i < |r| ==> r[i] == M.Plain(lines[i])
  {
    if lines == [] then [] else Returns(lines[..|lines| - 1]) + [M.Plain(lines[|lines| - 1])]
  }

  /** A printing line returns its text: `return x;`, or both branches of the test for null. */
  function Returning<V>(rt: Runtime<V>): M.Machine<G.Line, G.Line, Item<V>, Store<V>> {
    M.Machine((l: G.Line, st: Store<V>) => ([], st),
              (l: G.Line, st: Store<V>) =>
                if Prints(l) then M.Returned(ExecLine(l, rt, st, []).1)
                else M.Going(ExecLine(l, rt, st, []).1, ExecLine(l, rt, st, []).0))
  }

  // ---------- The function ----------

  /** The body of a generated function; in a program of one statement its lines return. */
  datatype Function = Function(isSimple: bool, statements: seq<M.Statement<G.Line, G.Line>>)

  function Build(lines: seq<G.Line>, isSimple: bool): Function {
    Function(isSimple, if isSimple then M.AsIs(Returns(lines)) else M.Merged(Sources(lines)))
  }

  /** A call on variables st, where a buffer that is not yet declared would hold `undefined`. */
  function Call<V>(f: Function, rt: Runtime<V>, st: Store<V>, undefined: seq<Item<V>>): M.Progress<Item<V>, Store<V>> {
    M.Run(f.statements, if f.isSimple then Returning(rt) else Buffering(rt), M.Going(undefined, st))
  }

  /** Every call returns the items. */
  ghost predicate Answers<V(!new)>(f: Function, items: seq<Item<V>>, rt: Runtime<V>) {
    forall st: Store<V>, undefined: seq<Item<V>> :: Call(f, rt, st, undefined) == M.Returned(items)
  }

  lemma AnswersUnique<V(!new)>(f: Function, a: seq<Item<V>>, b: seq<Item<V>>, rt: Runtime<V>)
    requires Answers(f, a, rt) && Answers(f, b, rt)
    ensures a == b
  {
    hide Call;
    assert Call(f, rt, Store(map[], None), []) == M.Returned(a);
  }

  /** The merged function of a program returns what the program denotes. */
  lemma FunctionReturns<V(!new)>(p: Program, o: Options, bp: Scope, rt: Runtime<V>) returns (t: G.State)
    requires OneMode(o) && FitsBody(p.body, o, [p.blockParams] + bp)
    ensures G.Run(G.INITIAL, CompileProgram(p, o, bp).opcodes, o) == Some(t)
    ensures Answers(Build(Finished(t), false), DenoteBody(p.body, o, [p.blockParams] + bp, 0, rt), rt)
  {
    hide G.Run, Exec, ExecLine, M.Run, M.Merged, M.InOrder, Sources, Buffering, DenoteBody, CompileProgram;
    t := CompileCorrect(p, o, bp, rt);
    forall st: Store<V>, undefined: seq<Item<V>>
      ensures Call(Build(Finished(t), false), rt, st, undefined) ==
              M.Returned(DenoteBody(p.body, o, [p.blockParams] + bp, 0, rt))
    {
      SourcesInOrder(Finished(t), rt, st);
      M.MergedMeans(Sources(Finished(t)), Buffering(rt), st, undefined);
    }
  }

  // ---------- Programs of one statement ----------

  /** Lines that only set variables print nothing. */
  lemma {:induction false} SilentLines<V>(lines: seq<G.Line>, rt: Runtime<V>, st: Store<V>)
    requires forall i :: 0 <= i < |lines| ==> lines[i].SetTmp? || lines[i].BlockFix?
    ensures Exec(lines, rt, st, []).1 == [] && M.InOrder(Returns(lines), Returning(rt), st) ==
            M.Going([], Exec(lines, rt, st, []).0)
    decreases |lines|
  {
    if lines == [] {
    } else {
      hide Eval;
      var n := |lines| - 1;
      SilentLines(lines[..n], rt, st);
      assert Returns(lines)[..n] == Returns(lines[..n]) && lines[..n] + [lines[n]] == lines;
      ExecAppend(lines[..n], [lines[n]], rt, st, []);
      var (st1, out1) := Exec(lines[..n], rt, st, []);
      ExecOne(lines[n], rt, st1, out1);
      hide Exec;
      assert [] + ExecLine(lines[n], rt, st1, []).1 == ExecLine(lines[n], rt, st1, []).1;
    }
  }

  predicate OnePrinter(lines: seq<G.Line>) {
    lines != [] && Prints(lines[|lines| - 1]) && forall i :: 0 <= i < |lines| - 1 ==>
      lines[i].SetTmp? || lines[i].BlockFix?
  }

  lemma OnePrinterReturns<V>(lines: seq<G.Line>, rt: Runtime<V>, st: Store<V>)
    requires OnePrinter(lines)
    ensures M.InOrder(Returns(lines), Returning(rt), st) == M.Returned(Exec(lines, rt, st, []).1)
  {
    hide Exec, ExecLine;
    var n := |lines| - 1;
    SilentLines(lines[..n], rt, st);
    assert Returns(lines)[..n] == Returns(lines[..n]) && lines[..n] + [lines[n]] == lines;
    ExecAppend(lines[..n], [lines[n]], rt, st, []);
    var (st1, out1) := Exec(lines[..n], rt, st, []);
    ExecOne(lines[n], rt, st1, out1);
  }

  /** Code after the first return is never reached. */
  lemma {:induction false} FirstReturns<V>(lines: seq<G.Line>, k: nat, rt: Runtime<V>, st: Store<V>)
    requires k <= |lines| && M.InOrder(Returns(lines[..k]), Returning(rt), st).Returned?
    ensures M.InOrder(Returns(lines), Returning(rt), st) == M.InOrder(Returns(lines[..k]), Returning(rt), st)
    decreases |lines| - k
  {
    hide ExecLine;
    if k == |lines| {
      assert lines[..k] == lines;
    } else {
      assert Returns(lines[..k + 1])[..k] == Returns(lines[..k]);
      assert M.InOrder(Returns(lines[..k + 1]), Returning(rt), st) == M.InOrder(Returns(lines[..k]), Returning(rt), st);
      FirstReturns(lines, k + 1, rt, st);
    }
  }

  predicate IndentAlone(m: Statement, o: Options) { m.PartialStatement? && o.preventIndent && m.indent != "" }

  lemma PrintsFromInitial(t: G.State)
    requires PrintsOnce(G.INITIAL, t)
    ensures OnePrinter(Finished(t))
  {
    assert G.INITIAL.lines + Pending(G.INITIAL) == [];
    assert t.lines + [] + [] == t.lines;
  }

  /** What one statement leaves: nothing, one printing line at the end, or an indent and then the partial. */
  lemma SingleLines<V(!new)>(m: Statement, o: Options, bp: Scope, rt: Runtime<V>) returns (t: G.State)
    requires OneMode(o) && Fits(m, o, bp)
    ensures G.Run(G.INITIAL, EmitStatement(m, o, bp, 0).opcodes, o) == Some(t)
    ensures forall st: Store<V> :: Exec(Finished(t), rt, st, []).1 == DenoteStatement(m, o, bp, 0, rt)
    ensures if IndentAlone(m, o) then |Finished(t)| > 0 && Finished(t)[0] == G.TextLine(m.indent)
            else OnePrinter(Finished(t)) || (Finished(t) == [] && DenoteStatement(m, o, bp, 0, rt) == [])
  {
    hide G.Run, Outputs, EmitMustache, EmitBlock, EmitPartial, EmitArguments, DenoteBlock, DenotePartial, PlainExprs,
         PlainHash,
         OptionsMean, MeansAll, PrintsOnce, OnePrinter, DenoteStatement, EmitStatement, Finished, Exec;
    InitialOutputs(rt);
    assert [] + DenoteStatement(m, o, bp, 0, rt) == DenoteStatement(m, o, bp, 0, rt);
    if m.MustacheStatement? {
      t := RunMustacheStatement(G.INITIAL, m.path, m.params, m.hash, m.escaped, [], o, bp, 0, rt);
      PrintsFromInitial(t);
    } else if m.BlockStatement? {
      t := SingleBlock(m, o, bp, rt);
    } else if m.PartialStatement? {
      t := SinglePartial(m, o, bp, rt);
    } else {
      t := SingleSilent(m, o, bp, rt);
    }
    FinishedOutputs(t, DenoteStatement(m, o, bp, 0, rt), rt);
  }

  lemma FinishedOutputs<V(!new)>(t: G.State, items: seq<Item<V>>, rt: Runtime<V>)
    requires Outputs(t, items, rt)
    ensures forall st: Store<V> :: Exec(Finished(t), rt, st, []).1 == items
  {
    hide Exec;
    assert Finished(t) == t.lines + Pending(t);
  }

  lemma SingleBlock<V(!new)>(m: Statement, o: Options, bp: Scope, rt: Runtime<V>) returns (t: G.State)
    requires OneMode(o) && Fits(m, o, bp) && m.BlockStatement?
    ensures G.Run(G.INITIAL, EmitStatement(m, o, bp, 0).opcodes, o) == Some(t)
    ensures Outputs(t, DenoteStatement(m, o, bp, 0, rt), rt) && OnePrinter(Finished(t))
  {
    hide G.Run, Outputs, EmitBlock, DenoteBlock, PlainExprs, PlainHash, PrintsOnce, OnePrinter;
    InitialOutputs(rt);
    assert [] + DenoteStatement(m, o, bp, 0, rt) == DenoteStatement(m, o, bp, 0, rt);
    t := RunBlock(G.INITIAL, m.path, m.params, m.hash, Guid(m.program, 0),
                  Guid(m.inverse, if m.program.Some? then 1 else 0), [], o, bp, rt);
    PrintsFromInitial(t);
  }

  lemma SinglePartial<V(!new)>(m: Statement, o: Options, bp: Scope, rt: Runtime<V>) returns (t: G.State)
    requires OneMode(o) && Fits(m, o, bp) && m.PartialStatement?
    ensures G.Run(G.INITIAL, EmitStatement(m, o, bp, 0).opcodes, o) == Some(t)
    ensures Outputs(t, DenoteStatement(m, o, bp, 0, rt), rt)
    ensures if IndentAlone(m, o) then |Finished(t)| > 0 && Finished(t)[0] == G.TextLine(m.indent)
            else OnePrinter(Finished(t))
  {
    hide G.Run, Outputs, EmitPartial, DenotePartial, PlainExprs, PlainHash;
    InitialOutputs(rt);
    assert [] + DenoteStatement(m, o, bp, 0, rt) == DenoteStatement(m, o, bp, 0, rt);
    t := RunPartial(G.INITIAL, m.partial, m.params, m.hash, Guid(m.program, 0), m.indent, [], o, bp, rt);
    var base := Indented(G.INITIAL, m.indent, o);
    assert base.pendingContent == if o.preventIndent then m.indent else "";
    if IndentAlone(m, o) {
      assert base.lines + Pending(base) == [G.TextLine(m.indent)];
      assert t.lines[0] == t.lines[..1][0];
      assert Finished(t) == t.lines + [] + [];
    } else {
      assert base.lines + Pending(base) == [];
      assert t.lines + [] + [] == t.lines;
    }
  }

  lemma SingleSilent<V(!new)>(m: Statement, o: Options, bp: Scope, rt: Runtime<V>) returns (t: G.State)
    requires OneMode(o) && Fits(m, o, bp) && (m.Decorator? || m.ContentStatement? || m.CommentStatement?)
    ensures G.Run(G.INITIAL, EmitStatement(m, o, bp, 0).opcodes, o) == Some(t)
    ensures Outputs(t, DenoteStatement(m, o, bp, 0, rt), rt)
    ensures OnePrinter(Finished(t)) || (Finished(t) == [] && DenoteStatement(m, o, bp, 0, rt) == [])
  {
    hide G.Run, Outputs, EmitArguments, PlainExprs, PlainHash, OptionsMean, MeansAll;
    InitialOutputs(rt);
    assert [] + DenoteStatement(m, o, bp, 0, rt) == DenoteStatement(m, o, bp, 0, rt);
    t := RunStatement(G.INITIAL, m, [], o, bp, 0, rt);
    if m.Decorator? {
      var t1, u := RunDecorator(G.INITIAL, m.path, m.params, m.hash, Guid(m.program, 0), [], o, bp, rt);
      assert t == t1 && Finished(t) == [];
    } else if m.ContentStatement? && m.content != "" {
      RunOne(G.INITIAL, AppendContent(m.content), o);
      assert Finished(t) == [G.TextLine(m.content)] by {
        assert "" + m.content == m.content;
      }
    } else {
      RunNothing(G.INITIAL, o);
      assert Finished(t) == [];
    }
  }

  /** The returning function of a statement returns what the statement denotes, unless it is a partial whose indent is
      printed by itself: the function then returns the indent and the partial is lost. */
  lemma SingleReturns<V(!new)>(m: Statement, o: Options, bp: Scope, rt: Runtime<V>) returns (t: G.State)
    requires OneMode(o) && Fits(m, o, bp)
    ensures G.Run(G.INITIAL, EmitStatement(m, o, bp, 0).opcodes, o) == Some(t)
    ensures Answers(Build(Finished(t), true), if IndentAlone(m, o) then Chars(m.indent)
                    else DenoteStatement(m, o, bp, 0, rt), rt)
  {
    hide G.Run, Exec, ExecLine, M.Run, M.InOrder, DenoteStatement, EmitStatement, Finished, OnePrinter, M.AsIs;
    t := SingleLines(m, o, bp, rt);
    var lines := Finished(t);
    var items := if IndentAlone(m, o) then Chars<V>(m.indent) else DenoteStatement(m, o, bp, 0, rt);
    forall st: Store<V>, undefined: seq<Item<V>>
      ensures Call(Build(lines, true), rt, st, undefined) == M.Returned(items)
    {
      if IndentAlone(m, o) {
        TextReturns(m.indent, rt, st);
        assert lines[..1] == [G.TextLine(m.indent)];
        FirstReturns(lines, 1, rt, st);
      } else if lines != [] {
        assert OnePrinter(lines);
        OnePrinterReturns(lines, rt, st);
      }
      M.AsIsMeans(Returns(lines), Returning(rt), st, undefined);
      assert Exec(lines, rt, st, []).1 == DenoteStatement(m, o, bp, 0, rt);
      NoPrinter();
    }
  }

  /** A program of one statement returns what it denotes exactly when that is no partial whose indent is printed by
      itself. The parser sets an indent only after a content statement, so it never makes such a program; a syntax tree
      handed to the compiler directly can hold one. */
  lemma SingleReturnsIff<V(!new)>(m: Statement, o: Options, bp: Scope, rt: Runtime<V>) returns (t: G.State)
    requires OneMode(o) && Fits(m, o, bp)
    ensures G.Run(G.INITIAL, EmitStatement(m, o, bp, 0).opcodes, o) == Some(t)
    ensures Answers(Build(Finished(t), true), DenoteStatement(m, o, bp, 0, rt), rt) <==> !IndentAlone(m, o)
  {
    hide G.Run, Answers, DenoteStatement, EmitStatement, Finished, Build;
    t := SingleReturns(m, o, bp, rt);
    if IndentAlone(m, o) && Answers(Build(Finished(t), true), DenoteStatement(m, o, bp, 0, rt), rt) {
      IndentShorter(m, o, bp, rt);
      AnswersUnique(Build(Finished(t), true), Chars(m.indent), DenoteStatement(m, o, bp, 0, rt), rt);
    }
  }

  lemma NoPrinter()
    ensures !OnePrinter([])
  {
  }

  lemma TextReturns<V>(text: string, rt: Runtime<V>, st: Store<V>)
    ensures M.InOrder(Returns([G.TextLine(text)]), Returning(rt), st) == M.Returned(Chars(text))
  {
    var lines := [G.TextLine(text)];
    assert OnePrinter(lines);
    OnePrinterReturns(lines, rt, st);
    ExecOne(G.TextLine(text), rt, st, []);
    hide Exec, M.InOrder;
    assert [] + Chars<V>(text) == Chars<V>(text);
  }

  lemma IndentShorter<V>(m: Statement, o: Options, bp: Scope, rt: Runtime<V>)
    requires IndentAlone(m, o)
    ensures |DenoteStatement(m, o, bp, 0, rt)| == |Chars<V>(m.indent)| + 1
  {
    hide Chars, PartialContext, DenoteOptions, DenoteHash, DenoteCallee;
  }

  // ---------- A program in either form ----------

  /** A program that is a single indented partial, the indent of which is printed by itself. */
  predicate Cut(p: Program, o: Options) { |p.body| == 1 && IndentAlone(p.body[0], o) }

  function LinesOf(env: Environment, o: Options): seq<G.Line> {
    var t := G.Run(G.INITIAL, env.opcodes, o);
    if t.Some? then Finished(t.value) else []
  }

  /** The function of an environment, in the form that a program of one statement or of several has. */
  function FunctionOf(env: Environment, isSimple: bool, o: Options): Function { Build(LinesOf(env, o), isSimple) }

  function DenoteProgram<V>(p: Program, o: Options, bp: Scope, rt: Runtime<V>): seq<Item<V>> {
    DenoteBody(p.body, o, [p.blockParams] + bp, 0, rt)
  }

  lemma MergedForm<V(!new)>(p: Program, o: Options, bp: Scope, rt: Runtime<V>)
    requires OneMode(o) && FitsBody(p.body, o, [p.blockParams] + bp)
    ensures Answers(FunctionOf(CompileProgram(p, o, bp), false, o), DenoteProgram(p, o, bp, rt), rt)
  {
    hide G.Run, Answers, DenoteBody, CompileProgram, Finished, Build, FitsBody;
    var t := FunctionReturns(p, o, bp, rt);
  }

  lemma ReturningForm<V(!new)>(p: Program, o: Options, bp: Scope, rt: Runtime<V>)
    requires OneMode(o) && FitsBody(p.body, o, [p.blockParams] + bp) && |p.body| == 1
    ensures Answers(FunctionOf(CompileProgram(p, o, bp), true, o), if Cut(p, o) then Chars(p.body[0].indent)
                    else DenoteProgram(p, o, bp, rt), rt)
  {
    hide G.Run, Answers, Finished, Build, Fits, DenoteStatement, CompileProgram, DenoteProgram;
    assert Fits(p.body[0], o, [p.blockParams] + bp);
    OneStatement(p, o, bp, rt);
    var t := SingleReturns(p.body[0], o, [p.blockParams] + bp, rt);
  }

  lemma OneStatement<V>(p: Program, o: Options, bp: Scope, rt: Runtime<V>)
    requires |p.body| == 1
    ensures CompileProgram(p, o, bp).opcodes == EmitStatement(p.body[0], o, [p.blockParams] + bp, 0).opcodes
    ensures DenoteProgram(p, o, bp, rt) == DenoteStatement(p.body[0], o, [p.blockParams] + bp, 0, rt)
  {
    hide DenoteStatement, EmitStatement;
    var inner := [p.blockParams] + bp;
    var first, items := EmitStatement(p.body[0], o, inner, 0), DenoteStatement(p.body[0], o, inner, 0, rt);
    assert p.body[1..] == [];
    assert EmitBody(p.body, o, inner, 0).opcodes == first.opcodes + EmitBody([], o, inner, |first.children|).opcodes ==
           first.opcodes;
    assert DenoteBody(p.body, o, inner, 0, rt) == items + DenoteBody([], o, inner, |first.children|, rt) == items;
  }

  /** Programs with the same opcodes denote the same. */
  lemma SameOpcodesDenote<V(!new)>(p: Program, bp: Scope, q: Program, bq: Scope, o: Options, rt: Runtime<V>)
    requires OneMode(o) && FitsBody(p.body, o, [p.blockParams] + bp) && FitsBody(q.body, o, [q.blockParams] + bq)
    requires CompileProgram(p, o, bp).opcodes == CompileProgram(q, o, bq).opcodes
    ensures DenoteProgram(p, o, bp, rt) == DenoteProgram(q, o, bq, rt)
  {
    hide Answers, DenoteProgram, CompileProgram, FitsBody, Build, G.Run;
    MergedForm(p, o, bp, rt);
    MergedForm(q, o, bq, rt);
    AnswersUnique(FunctionOf(CompileProgram(p, o, bp), false, o), DenoteProgram(p, o, bp, rt),
                  DenoteProgram(q, o, bq, rt), rt);
  }

  lemma CutShorter<V>(p: Program, o: Options, bp: Scope, rt: Runtime<V>)
    requires Cut(p, o)
    ensures Chars<V>(p.body[0].indent) != DenoteProgram(p, o, bp, rt)
  {
    hide DenoteStatement, DenoteProgram;
    OneStatement(p, o, bp, rt);
    IndentShorter(p.body[0], o, [p.blockParams] + bp, rt);
  }

  /** The function of a program, in the form that another with the same opcodes has, returns what the program denotes
      exactly when the other is no single indented partial. */
  lemma FormReturnsIff<V(!new)>(p: Program, bp: Scope, q: Program, bq: Scope, o: Options, rt: Runtime<V>)
    requires OneMode(o) && FitsBody(p.body, o, [p.blockParams] + bp) && FitsBody(q.body, o, [q.blockParams] + bq)
    requires CompileProgram(p, o, bp).opcodes == CompileProgram(q, o, bq).opcodes
    ensures Answers(FunctionOf(CompileProgram(p, o, bp), |q.body| == 1, o), DenoteProgram(p, o, bp, rt), rt) <==>
            !Cut(q, o)
  {
    hide Answers, DenoteProgram, CompileProgram, FitsBody, Build, G.Run;
    SameOpcodesDenote(p, bp, q, bq, o, rt);
    var f := FunctionOf(CompileProgram(p, o, bp), |q.body| == 1, o);
    if |q.body| != 1 {
      MergedForm(p, o, bp, rt);
    } else {
      ReturningForm(q, o, bq, rt);
      if Cut(q, o) && Answers(f, DenoteProgram(p, o, bp, rt), rt) {
        CutShorter(q, o, bq, rt);
        AnswersUnique(f, Chars(q.body[0].indent), DenoteProgram(p, o, bp, rt), rt);
      }
    }
  }

  /** The two forms return the same, whatever they return. */
  ghost predicate Agree<V(!new)>(f: Function, g: Function, rt: Runtime<V>) {
    forall st: Store<V>, undefined: seq<Item<V>> :: Call(f, rt, st, undefined) == Call(g, rt, st, undefined)
  }

  lemma AgreeAnswers<V(!new)>(f: Function, g: Function, items: seq<Item<V>>, rt: Runtime<V>)
    requires Answers(f, items, rt)
    ensures Agree(f, g, rt) <==> Answers(g, items, rt)
  {
    hide Call;
    if Agree(f, g, rt) {
      forall st: Store<V>, undefined: seq<Item<V>>
        ensures Call(g, rt, st, undefined) == M.Returned(items)
      {
        assert Call(f, rt, st, undefined) == Call(g, rt, st, undefined);
      }
    }
  }

  /** A single program is cut in both forms of its equals, or in none. */
  lemma CutTogether<V(!new)>(p: Program, bp: Scope, q: Program, bq: Scope, o: Options, rt: Runtime<V>)
    requires OneMode(o) && FitsBody(p.body, o, [p.blockParams] + bp) && FitsBody(q.body, o, [q.blockParams] + bq)
    requires CompileProgram(p, o, bp).opcodes == CompileProgram(q, o, bq).opcodes && |p.body| == 1 == |q.body|
    ensures Cut(p, o) == Cut(q, o)
  {
    hide Answers, DenoteProgram, CompileProgram, FitsBody, Build, G.Run, Cut;
    FormReturnsIff(p, bp, q, bq, o, rt);
    FormReturnsIff(p, bp, p, bp, o, rt);
  }

  /** The function of p in its own form and in that of an equal program q agree exactly when the forms are the same,
      or the one of them that has a single statement is no indented partial. */
  lemma FormsAgreeIff<V(!new)>(p: Program, bp: Scope, q: Program, bq: Scope, o: Options, rt: Runtime<V>)
    requires OneMode(o) && FitsBody(p.body, o, [p.blockParams] + bp) && FitsBody(q.body, o, [q.blockParams] + bq)
    requires CompileProgram(p, o, bp).opcodes == CompileProgram(q, o, bq).opcodes
    ensures Agree(FunctionOf(CompileProgram(p, o, bp), |p.body| == 1, o),
                  FunctionOf(CompileProgram(p, o, bp), |q.body| == 1, o), rt) <==>
            (|p.body| == 1 <==> |q.body| == 1) || !(Cut(p, o) || Cut(q, o))
  {
    hide Answers, DenoteProgram, CompileProgram, FitsBody, Build, G.Run, Agree;
    var f, g := FunctionOf(CompileProgram(p, o, bp), |p.body| == 1, o),
      FunctionOf(CompileProgram(p, o, bp), |q.body| == 1, o);
    FormReturnsIff(p, bp, p, bp, o, rt);
    FormReturnsIff(p, bp, q, bq, o, rt);
    if |p.body| == 1 <==> |q.body| == 1 {
      AgreeSelf(f, rt);
    } else if !Cut(p, o) {
      AgreeAnswers(f, g, DenoteProgram(p, o, bp, rt), rt);
    } else {
      AgreeAnswers(g, f, DenoteProgram(p, o, bp, rt), rt);
      AgreeSymmetric(f, g, rt);
    }
  }

  lemma AgreeSelf<V(!new)>(f: Function, rt: Runtime<V>)
    ensures Agree(f, f, rt)
  {
  }

  lemma AgreeSymmetric<V(!new)>(f: Function, g: Function, rt: Runtime<V>)
    ensures Agree(f, g, rt) <==> Agree(g, f, rt)
  {
    hide Call;
  }
}
