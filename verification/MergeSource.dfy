/** The second pass over generated lines: runs of appended chunks become single
    expressions, and the buffer is declared, extended or returned around them. */
module MergeSource {
  import opened Wrappers

  /** A line marked appendToBuffer, or any other line. */
  datatype Line<E, P> = Append(chunk: E) | Plain(code: P)

  // ---------- What lines do ----------

  /** The function has returned, or goes on with a buffer and its variables. */
  datatype Progress<T, S> = Returned(text: seq<T>) | Going(buffer: seq<T>, store: S)

  /** Chunks compute strings and both kinds of line may change the variables; a plain line may append
      to the buffer itself, or return. */
  datatype Machine<!E, !P, !T, !S> = Machine(eval: (E, S) -> (seq<T>, S), exec: (P, S) -> Progress<T, S>)

  function Execute<E, P, T, S>(code: P, m: Machine<E, P, T, S>, p: Progress<T, S>): Progress<T, S> {
    if p.Returned? then p else
      match m.exec(code, p.store)
      case Returned(t) => Returned(t)
      case Going(added, s) => Going(p.buffer + added, s)
  }

  /** Every line in order, each chunk appended to a buffer that starts empty. */
  function InOrder<E, P, T, S>(lines: seq<Line<E, P>>, m: Machine<E, P, T, S>, s: S): Progress<T, S>
    decreases |lines|
  {
    if lines == [] then Going([], s) else
      var p := InOrder(lines[..|lines| - 1], m, s);
      match lines[|lines| - 1]
      case Append(chunk) => AddRun([chunk], m, p)
      case Plain(code) => Execute(code, m, p)
  }

  // ---------- Statements ----------

  /** `var buffer = a + b;`, `var buffer = "";`, `buffer += a + b;`, `return a + b;`, `return "";`,
      `return buffer + a + b;`, `return buffer;` and any other line. */
  datatype Statement<E, P> =
    | Init(run: seq<E>)
    | InitEmpty
    | AddTo(run: seq<E>)
    | Return(run: seq<E>)
    | ReturnEmpty
    | ReturnWith(run: seq<E>)
    | ReturnBuffer
    | Do(code: P)

  /** `a + b + ...` from left to right. */
  function EvalRun<E, P, T, S>(run: seq<E>, m: Machine<E, P, T, S>, s: S): (seq<T>, S)
    decreases |run|
  {
    if run == [] then ([], s) else
      var (t, s1) := EvalRun(run[..|run| - 1], m, s);
      var (u, s2) := m.eval(run[|run| - 1], s1);
      (t + u, s2)
  }

  function AddRun<E, P, T, S>(run: seq<E>, m: Machine<E, P, T, S>, p: Progress<T, S>): Progress<T, S> {
    if p.Returned? then p else
      var (t, s) := EvalRun(run, m, p.store);
      Going(p.buffer + t, s)
  }

  function Step<E, P, T, S>(statement: Statement<E, P>, m: Machine<E, P, T, S>, p: Progress<T, S>): Progress<T, S> {
    if p.Returned? then p else
      match statement
      case Init(run) => AddRun(run, m, Going([], p.store))
      case InitEmpty => Going([], p.store)
      case AddTo(run) => AddRun(run, m, p)
      case Return(run) => Returned(EvalRun(run, m, p.store).0)
      case ReturnEmpty => Returned([])
      case ReturnWith(run) => Returned(p.buffer + EvalRun(run, m, p.store).0)
      case ReturnBuffer => Returned(p.buffer)
      case Do(code) => Execute(code, m, p)
  }

  function Run<E, P, T, S>(statements: seq<Statement<E, P>>, m: Machine<E, P, T, S>, p: Progress<T, S>): Progress<T, S>
    decreases |statements|
  {
    if statements == [] then p else Step(statements[|statements| - 1], m, Run(statements[..|statements| - 1], m, p))
  }

  // ---------- The statements mergeSource makes ----------

  /** The chunks since the last plain line. */
  function Pending<E, P>(lines: seq<Line<E, P>>): seq<E>
    decreases |lines|
  {
    if lines == [] || lines[|lines| - 1].Plain? then [] else Pending(lines[..|lines| - 1]) + [lines[|lines| - 1].chunk]
  }

  /** The statements up to the last plain line: a run at the very start initialises the buffer, later runs add to it. */
  function Started<E, P>(lines: seq<Line<E, P>>): seq<Statement<E, P>>
    decreases |lines|
  {
    if lines == [] then [] else
      var n := |lines| - 1;
      if lines[n].Append? then Started(lines[..n])
      else Started(lines[..n]) + Closing(Pending(lines[..n]), Started(lines[..n]) == []) + [Do(lines[n].code)]
  }

  function Closing<E, P>(run: seq<E>, first: bool): seq<Statement<E, P>> {
    if run == [] then (if first then [InitEmpty] else []) else if first then [Init(run)] else [AddTo(run)]
  }

  function Merged<E, P>(lines: seq<Line<E, P>>): seq<Statement<E, P>> {
    var run := Pending(lines);
    if Started(lines) == [] then [if run == [] then ReturnEmpty else Return(run)]
    else Started(lines) + [if run == [] then ReturnBuffer else ReturnWith(run)]
  }

  // ---------- Merging keeps the meaning ----------

  lemma RunSnoc<E, P, T, S>(statements: seq<Statement<E, P>>, x: Statement<E, P>, m: Machine<E, P, T, S>, p: Progress<T,
                            S>)
    ensures Run(statements + [x], m, p) == Step(x, m, Run(statements, m, p))
  {
    hide Step;
    assert (statements + [x])[..|statements|] == statements;
  }

  lemma RunOne<E, P, T, S>(x: Statement<E, P>, m: Machine<E, P, T, S>, p: Progress<T, S>)
    ensures Run([x], m, p) == Step(x, m, p)
  {
    hide Step;
    RunSnoc([], x, m, p);
    assert [] + [x] == [x];
  }

  /** Before any statement the buffer does not exist; afterwards it holds what has been appended. */
  function StartProgress<E, P, T, S>(lines: seq<Line<E, P>>, m: Machine<E, P, T, S>, s: S,
                                     undefined: seq<T>): Progress<T, S> {
    if Started(lines) == [] then Going([], s) else Run(Started(lines), m, Going(undefined, s))
  }

  lemma {:induction false} StartedMeans<E, P, T, S>(lines: seq<Line<E, P>>, m: Machine<E, P, T, S>, s: S,
                                                    undefined: seq<T>)
    ensures AddRun(Pending(lines), m, StartProgress(lines, m, s, undefined)) == InOrder(lines, m, s)
    decreases |lines|
  {
    hide EvalRun, Started, Pending, Closing, AddRun, InOrder, Run, Step, Execute, StartProgress;
    if lines == [] {
      StartedNone(m, s, undefined);
    } else {
      var n := |lines| - 1;
      assert lines[..n + 1] == lines;
      StartedMeans(lines[..n], m, s, undefined);
      LineAdded(lines, n);
      InOrderLast(lines, m, s);
      if lines[n].Append? {
        SameStart(lines[..n], lines, m, s, undefined);
        AddSnoc(Pending(lines[..n]), lines[n].chunk, m, StartProgress(lines, m, s, undefined));
      } else {
        ClosingMeans(lines[..n], m, s, undefined);
        StartedPlain(lines, m, s, undefined);
        AddNone(m, StartProgress(lines, m, s, undefined));
      }
    }
  }

  lemma StartedNone<E, P, T, S>(m: Machine<E, P, T, S>, s: S, undefined: seq<T>)
    ensures var none: seq<Line<E, P>> := [];
      AddRun(Pending(none), m, StartProgress(none, m, s, undefined)) == InOrder(none, m, s)
  {
    hide EvalRun;
    EvalNone(m, s);
  }

  lemma InOrderLast<E, P, T, S>(lines: seq<Line<E, P>>, m: Machine<E, P, T, S>, s: S)
    requires lines != []
    ensures var n, p := |lines| - 1, InOrder(lines[..|lines| - 1], m, s);
      InOrder(lines, m, s) == if lines[n].Append? then AddRun([lines[n].chunk], m, p) else Execute(lines[n].code, m, p)
  {
    hide AddRun, Execute;
  }

  lemma SameStart<E, P, T, S>(a: seq<Line<E, P>>, b: seq<Line<E, P>>, m: Machine<E, P, T, S>, s: S, undefined: seq<T>)
    requires Started(a) == Started(b)
    ensures StartProgress(a, m, s, undefined) == StartProgress(b, m, s, undefined)
  {
  }

  /** A plain line runs after the run before it has been closed. */
  lemma StartedPlain<E, P, T, S>(lines: seq<Line<E, P>>, m: Machine<E, P, T, S>, s: S, undefined: seq<T>)
    requires lines != [] && lines[|lines| - 1].Plain?
    ensures var n := |lines| - 1;
      var before := Started(lines[..n]);
      StartProgress(lines, m, s, undefined) ==
      Execute(lines[n].code, m, Run(before + Closing(Pending(lines[..n]), before == []), m, Going(undefined, s)))
  {
    hide EvalRun, Pending, Closing, AddRun, Run, Execute;
    var n := |lines| - 1;
    var before := Started(lines[..n]);
    var closed := before + Closing(Pending(lines[..n]), before == []);
    RunSnoc(closed, Do(lines[n].code), m, Going(undefined, s));
    DoStep(lines[n].code, m, Run(closed, m, Going(undefined, s)));
  }

  lemma DoStep<E, P, T, S>(code: P, m: Machine<E, P, T, S>, p: Progress<T, S>)
    ensures Step(Do(code), m, p) == Execute(code, m, p)
  {
  }

  lemma EvalNone<E, P, T, S>(m: Machine<E, P, T, S>, s: S)
    ensures EvalRun([], m, s) == ([], s)
  {
  }

  lemma AddNone<E, P, T, S>(m: Machine<E, P, T, S>, p: Progress<T, S>)
    ensures AddRun([], m, p) == p
  {
    if p.Going? {
      assert p.buffer + [] == p.buffer;
    }
  }

  lemma AddSnoc<E, P, T, S>(run: seq<E>, x: E, m: Machine<E, P, T, S>, p: Progress<T, S>)
    ensures AddRun(run + [x], m, p) == AddRun([x], m, AddRun(run, m, p))
  {
    if p.Going? {
      assert (run + [x])[..|run|] == run && [x][..0] == [];
      var (t, s1) := EvalRun(run, m, p.store);
      var (u, s2) := m.eval(x, s1);
      assert EvalRun([x], m, s1) == ([] + u, s2);
      assert p.buffer + (t + u) == p.buffer + t + ([] + u);
    }
  }

  /** The statement that closes a pending run, whichever of the four it is. */
  lemma ClosingMeans<E, P, T, S>(lines: seq<Line<E, P>>, m: Machine<E, P, T, S>, s: S, undefined: seq<T>)
    ensures var started, run := Started(lines), Pending(lines);
            Run(started + Closing(run, started == []), m, Going(undefined, s)) ==
              AddRun(run, m, StartProgress(lines, m, s, undefined))
  {
    hide EvalRun;
    var started, run := Started(lines), Pending(lines);
    AddNone(m, StartProgress(lines, m, s, undefined));
    if started == [] {
      var x := if run == [] then InitEmpty else Init(run);
      RunOne(x, m, Going(undefined, s));
      assert [] + [x] == [x];
    } else if run == [] {
      assert started + [] == started;
    } else {
      RunSnoc(started, AddTo(run), m, Going(undefined, s));
    }
  }

  /** The merged function returns what appending each line in order gives, for every mix of lines, whatever an
      undeclared buffer would hold. */
  lemma MergedMeans<E, P, T, S>(lines: seq<Line<E, P>>, m: Machine<E, P, T, S>, s: S, undefined: seq<T>)
    ensures Run(Merged(lines), m, Going(undefined, s)) ==
            Returned(if InOrder(lines, m, s).Returned? then InOrder(lines, m, s).text else InOrder(lines, m, s).buffer)
  {
    hide EvalRun;
    var started, run := Started(lines), Pending(lines);
    StartedMeans(lines, m, s, undefined);
    AddNone(m, StartProgress(lines, m, s, undefined));
    if started == [] {
      RunOne(if run == [] then ReturnEmpty else Return(run), m, Going(undefined, s));
      assert forall t: seq<T> :: [] + t == t;
    } else {
      RunSnoc(started, if run == [] then ReturnBuffer else ReturnWith(run), m, Going(undefined, s));
    }
  }

  // ---------- The loop ----------

  datatype Prefix = Bare | Plus | AddToBuffer | ReturnIt | ReturnBufferPlus

  /** A line with what was put before and after it. */
  datatype Mark<E, P> = Mark(prefix: Prefix, line: Line<E, P>, semicolon: bool)

  /** `var ...;`, `var ..., buffer = "";`, or `var ..., buffer = ` with the first chunk to follow. */
  datatype Header = NoBuffer | EmptyBuffer | OpenBuffer

  datatype Footer = Nothing | ReturnEmptyText | ReturnTheBuffer

  datatype Output<E, P> = Output(header: Header, marks: seq<Mark<E, P>>, footer: Footer)

  /** A run as it is written: a prefix, the chunks joined by plus signs, and a semicolon once it is closed. */
  function Written<E, P>(prefix: Prefix, run: seq<E>, closed: bool): (r: seq<Mark<E, P>>)
    ensures |r| == |run|
  {
    if run == [] then [] else
      var n := |run| - 1;
      Written(prefix, run[..n], false) + [Mark(if n == 0 then prefix else Plus, Append(run[n]), closed)]
  }

  function Lay<E, P>(statement: Statement<E, P>): seq<Mark<E, P>> {
    match statement
    case Init(run) => Written(Bare, run, true)
    case AddTo(run) => Written(AddToBuffer, run, true)
    case Return(run) => Written(ReturnIt, run, true)
    case ReturnWith(run) => Written(ReturnBufferPlus, run, true)
    case Do(code) => [Mark(Bare, Plain(code), false)]
    case _ => []
  }

  function LayAll<E, P>(statements: seq<Statement<E, P>>): seq<Mark<E, P>> {
    if statements == [] then [] else LayAll(statements[..|statements| - 1]) + Lay(statements[|statements| - 1])
  }

  /** The text of a list of statements: only the first can declare the buffer, only the last returns. */
  function Text<E, P>(statements: seq<Statement<E, P>>): Output<E, P>
    requires statements != []
  {
    var first, last := statements[0], statements[|statements| - 1];
    Output(if first.Init? then OpenBuffer else if first.InitEmpty? then EmptyBuffer else NoBuffer, LayAll(statements),
           if last.ReturnEmpty? then ReturnEmptyText else if last.ReturnBuffer? then ReturnTheBuffer else Nothing)
  }

  lemma LaySnoc<E, P>(statements: seq<Statement<E, P>>, x: Statement<E, P>)
    ensures LayAll(statements + [x]) == LayAll(statements) + Lay(x)
  {
    hide Lay;
    assert (statements + [x])[..|statements|] == statements;
  }

  /** Adding a prefix to the first mark of a run and a semicolon to the last. */
  lemma {:induction false} Rewritten<E, P>(prefix: Prefix, run: seq<E>, marks: seq<Mark<E, P>>)
    requires run != [] && marks == Written(Bare, run, false)
    ensures marks[0].prefix == Bare
    ensures marks[0 := marks[0].(prefix := prefix)] == Written(prefix, run, false)
    decreases |run|
  {
    var n := |run| - 1;
    if n > 0 {
      var rest: seq<Mark<E, P>> := Written(Bare, run[..n], false);
      Rewritten(prefix, run[..n], rest);
      assert marks == rest + [marks[n]];
      assert marks[0 := marks[0].(prefix := prefix)] == rest[0 := rest[0].(prefix := prefix)] + [marks[n]];
    }
  }

  lemma Closed<E, P>(prefix: Prefix, run: seq<E>, marks: seq<Mark<E, P>>)
    requires run != [] && marks == Written(prefix, run, false)
    ensures marks[|run| - 1 := marks[|run| - 1].(semicolon := true)] == Written(prefix, run, true)
  {
  }

  predicate Simple<E, P>(lines: seq<Line<E, P>>) { forall i :: 0 <= i < |lines| ==> lines[i].Plain? }

  /** The lines of a program of one statement stay as they are. */
  function AsIs<E, P>(lines: seq<Line<E, P>>): seq<Statement<E, P>>
    requires Simple(lines)
  {
    if lines == [] then [ReturnEmpty] else Bodies(lines)
  }

  function Bodies<E, P>(lines: seq<Line<E, P>>): (r: seq<Statement<E, P>>)
    requires Simple(lines)
    ensures |r| == |lines| && forall i :: 0 <= i < |r| ==> r[i].Do?
    decreases |lines|
  {
    if lines == [] then [] else Bodies(lines[..|lines| - 1]) + [Do(lines[|lines| - 1].code)]
  }

  lemma {:induction false} BodiesMean<E, P, T, S>(lines: seq<Line<E, P>>, m: Machine<E, P, T, S>, s: S,
                                                  undefined: seq<T>)
    requires Simple(lines)
    ensures var p, q := Run(Bodies(lines), m, Going(undefined, s)), InOrder(lines, m, s);
            (p.Returned? <==> q.Returned?) && (if p.Returned? then p == q else p.store == q.store)
    decreases |lines|
  {
    if lines != [] {
      var n := |lines| - 1;
      BodiesMean(lines[..n], m, s, undefined);
      RunSnoc(Bodies(lines[..n]), Do(lines[n].code), m, Going(undefined, s));
    }
  }

  /** In a program of one statement, which has no append lines, the function returns what its lines return. */
  lemma AsIsMeans<E, P, T, S>(lines: seq<Line<E, P>>, m: Machine<E, P, T, S>, s: S, undefined: seq<T>)
    requires Simple(lines) && (lines == [] || InOrder(lines, m, s).Returned?)
    ensures Run(AsIs(lines), m, Going(undefined, s)) == if lines == [] then Returned([]) else InOrder(lines, m, s)
  {
    if lines == [] {
      RunOne<E, P, T, S>(ReturnEmpty, m, Going(undefined, s));
    } else {
      BodiesMean(lines, m, s, undefined);
    }
  }

  lemma Empty<E, P>()
    ensures Started<E, P>([]) == [] && Pending<E, P>([]) == [] && LayAll<E, P>([]) == [] &&
            Written<E, P>(Bare, [], false) == []
  {
  }

  lemma LineAdded<E, P>(lines: seq<Line<E, P>>, i: nat)
    requires i < |lines|
    ensures var before, run := Started(lines[..i]), Pending(lines[..i]);
            if lines[i].Append? then
              Started(lines[..i + 1]) == before && Pending(lines[..i + 1]) == run + [lines[i].chunk]
            else
              Started(lines[..i + 1]) == before + Closing(run, before == []) + [Do(lines[i].code)] &&
              Pending(lines[..i + 1]) == []
  {
    hide Closing;
    assert lines[..i + 1][..i] == lines[..i];
  }

  lemma WrittenSnoc<E, P>(prefix: Prefix, run: seq<E>, x: E)
    ensures Written<E, P>(prefix, run + [x], false) ==
            Written<E, P>(prefix, run, false) + [Mark(if run == [] then prefix else Plus, Append(x), false)]
  {
    assert (run + [x])[..|run|] == run;
  }

  lemma ClosingLaid<E, P>(before: seq<Statement<E, P>>, run: seq<E>)
    ensures LayAll(before + Closing(run, before == [])) ==
            LayAll(before) + if run == [] then [] else Written(if before == [] then Bare else AddToBuffer, run, true)
  {
    hide LayAll;
    var closing := Closing<E, P>(run, before == []);
    if closing == [] {
      assert before + closing == before && LayAll(before) + [] == LayAll(before);
    } else {
      LaySnoc(before, closing[0]);
      assert closing == [closing[0]];
    }
  }

  /** Which statement comes first once a plain line has been met. */
  lemma ClosingFirst<E, P>(before: seq<Statement<E, P>>, run: seq<E>, code: P)
    ensures var after := before + Closing(run, before == []) + [Do(code)];
            if before != [] then after[0] == before[0] else if run == [] then after[0].InitEmpty? else after[0].Init?
  {
  }

  lemma {:induction false} SimpleLaid<E, P>(lines: seq<Line<E, P>>)
    requires Simple(lines)
    ensures Pending(lines) == [] && LayAll(Started(lines)) == LayAll(Bodies(lines))
    ensures (Started(lines) == [] <==> lines == []) && Pending(lines) == []
    decreases |lines|
  {
    hide LayAll;
    Empty<E, P>();
    if lines != [] {
      var n := |lines| - 1;
      SimpleLaid(lines[..n]);
      var before := Started(lines[..n]);
      ClosingLaid(before, []);
      LaySnoc(before + Closing([], before == []), Do(lines[n].code));
      LaySnoc(Bodies(lines[..n]), Do(lines[n].code));
      assert LayAll(before) + [] == LayAll(before);
    }
  }

  /** The text of the statements, from what the loop has found out. */
  lemma Finish<E, P>(lines: seq<Line<E, P>>, isSimple: bool, marks: seq<Mark<E, P>>)
    requires isSimple ==> Simple(lines)
    requires var started, run := Started(lines), Pending(lines);
             marks == LayAll(started) + if run == [] then []
               else Written(if isSimple || started == [] then ReturnIt else ReturnBufferPlus, run, true)
    requires Started(lines) == [] || Started(lines)[0].Init? || Started(lines)[0].InitEmpty?
    ensures var started, run := Started(lines), Pending(lines);
            Text(if isSimple then AsIs(lines) else Merged(lines)) ==
            if isSimple || started == [] then Output(NoBuffer, marks, if run == [] && started == [] then ReturnEmptyText
                                                     else Nothing)
            else Output(if started[0].Init? then OpenBuffer else EmptyBuffer, marks, if run == [] then ReturnTheBuffer
                        else Nothing)
  {
    hide LayAll, Written, Lay, Started, Pending, Bodies;
    var started, run := Started(lines), Pending(lines);
    if isSimple {
      Empty<E, P>();
      SimpleLaid(lines);
      assert LayAll(started) + [] == LayAll(started);
      LastLaid<E, P>(ReturnEmpty);
    } else if started == [] {
      LastLaid<E, P>(if run == [] then ReturnEmpty else Return(run));
      Empty<E, P>();
      assert [] + marks == marks;
    } else {
      FinishBuffer(started, run, marks);
    }
  }

  lemma LastLaid<E, P>(x: Statement<E, P>)
    requires x.ReturnEmpty? || x.Return?
    ensures LayAll([x]) == if x.ReturnEmpty? then [] else Written(ReturnIt, x.run, true)
  {
    hide LayAll, Written;
    OneLaid(x);
  }

  /** The statements of a program with a buffer, and the one that returns it. */
  lemma FinishBuffer<E, P>(started: seq<Statement<E, P>>, run: seq<E>, marks: seq<Mark<E, P>>)
    requires started != [] && (started[0].Init? || started[0].InitEmpty?)
    requires marks == LayAll(started) + if run == [] then [] else Written(ReturnBufferPlus, run, true)
    ensures Text(started + [if run == [] then ReturnBuffer else ReturnWith(run)]) ==
            Output(if started[0].Init? then OpenBuffer else EmptyBuffer, marks, if run == [] then ReturnTheBuffer
                   else Nothing)
  {
    hide LayAll, Written;
    var last := if run == [] then ReturnBuffer else ReturnWith(run);
    LaySnoc(started, last);
    var all := started + [last];
    assert all[0] == started[0] && all[|all| - 1] == last;
  }

  lemma OneLaid<E, P>(x: Statement<E, P>)
    ensures LayAll([x]) == Lay(x)
  {
    hide Lay;
    LaySnoc([], x);
    assert [] + [x] == [x];
  }

  /** The marks after i lines: finished statements, the pending run, and lines not yet reached. */
  ghost predicate Laid<E, P>(marks: seq<Mark<E, P>>, lines: seq<Line<E, P>>, i: nat) {
    && |marks| == |lines| && i <= |lines| && (forall j :: i <= j < |lines| ==> marks[j] == Mark(Bare, lines[j], false))
    && |Pending(lines[..i])| <= i
    && marks[..i - |Pending(lines[..i])|] == LayAll(Started(lines[..i]))
    && marks[i - |Pending(lines[..i])|..i] == Written(Bare, Pending(lines[..i]), false)
  }

  lemma LaidAppend<E, P>(was: seq<Mark<E, P>>, lines: seq<Line<E, P>>, i: nat)
    requires Laid(was, lines, i) && i < |lines| && lines[i].Append?
    ensures Laid(was[i := Mark(if Pending(lines[..i]) == [] then Bare else Plus, lines[i], false)], lines, i + 1)
  {
    hide LayAll, Written, Started, Pending;
    LineAdded(lines, i);
    var run := Pending(lines[..i]);
    var n := i - |run|;
    var marks := was[i := Mark(if run == [] then Bare else Plus, lines[i], false)];
    WrittenSnoc<E, P>(Bare, run, lines[i].chunk);
    assert marks[n..i + 1] == was[n..i] + [marks[i]];
    assert marks[..n] == was[..n];
  }

  lemma LaidPlain<E, P>(was: seq<Mark<E, P>>, marks: seq<Mark<E, P>>, lines: seq<Line<E, P>>, i: nat)
    requires Laid(was, lines, i) && i < |lines| && lines[i].Plain? && |marks| == |was|
    requires var before, run := Started(lines[..i]), Pending(lines[..i]);
             marks[..i - |run|] == was[..i - |run|] && marks[i..] == was[i..] &&
             marks[i - |run|..i] == Written(if before == [] then Bare else AddToBuffer, run, true)
    ensures Laid(marks, lines, i + 1)
  {
    hide LayAll, Lay, Written, Started, Pending, Closing;
    var before, run := Started(lines[..i]), Pending(lines[..i]);
    var n := i - |run|;
    LineAdded(lines, i);
    ClosingLaid(before, run);
    LaySnoc(before + Closing(run, before == []), Do(lines[i].code));
    DoLaid<E, P>(lines[i].code);
    WrittenNone<E, P>(if before == [] then Bare else AddToBuffer);
    assert marks[i] == marks[i..][0] == was[i..][0] == was[i];
    assert marks[..i + 1] == marks[..n] + marks[n..i] + [marks[i]];
    forall j | i + 1 <= j < |lines|
      ensures marks[j] == Mark(Bare, lines[j], false)
    {
      assert marks[j] == marks[i..][j - i] == was[i..][j - i];
    }
    Empty<E, P>();
  }

  lemma WrittenNone<E, P>(prefix: Prefix)
    ensures Written<E, P>(prefix, [], true) == [] && Written<E, P>(prefix, [], false) == []
  {
  }

  lemma DoLaid<E, P>(code: P)
    ensures Lay<E, P>(Do(code)) == [Mark(Bare, Plain(code), false)]
  {
  }

  class Merger<E, P> {
    var marks: seq<Mark<E, P>>

    constructor (lines: seq<Line<E, P>>)
      ensures |marks| == |lines| && forall i :: 0 <= i < |lines| ==> marks[i] == Mark(Bare, lines[i], false)
    {
      marks := seq(|lines|, i requires 0 <= i < |lines| => Mark(Bare, lines[i], false));
    }

    method Prepend(i: nat, prefix: Prefix)
      requires i < |marks|
      modifies this
      ensures marks == old(marks)[i := old(marks[i]).(prefix := prefix)]
    {
      marks := marks[i := marks[i].(prefix := prefix)];
    }

    method Close(i: nat)
      requires i < |marks|
      modifies this
      ensures marks == old(marks)[i := old(marks[i]).(semicolon := true)]
    {
      marks := marks[i := marks[i].(semicolon := true)];
    }

    /** Gives the pending run its prefix and its semicolon. */
    method CloseRun(start: nat, end: nat, prefix: Prefix, ghost run: seq<E>)
      requires start <= end < |marks| && run != [] && marks[start..end + 1] == Written(Bare, run, false)
      modifies this
      ensures |marks| == |old(marks)| && marks[..start] == old(marks)[..start] &&
              marks[end + 1..] == old(marks)[end + 1..]
      ensures marks[start..end + 1] == Written(prefix, run, true)
    {
      Rewritten(prefix, run, marks[start..end + 1]);
      ghost var was := marks;
      if prefix != Bare {
        Prepend(start, prefix);
      }
      assert marks[start..end + 1] == was[start..end + 1][0 := was[start].(prefix := prefix)];
      Closed(prefix, run, marks[start..end + 1]);
      ghost var prefixed := marks;
      Close(end);
      assert marks[start..end + 1] == prefixed[start..end + 1][|run| - 1 := prefixed[end].(semicolon := true)];
    }

    /** mergeSource: `isSimple` programs hold only lines that return. */
    method MergeSource(lines: seq<Line<E, P>>, isSimple: bool) returns (out: Output<E, P>)
      requires |marks| == |lines| && forall i :: 0 <= i < |lines| ==> marks[i] == Mark(Bare, lines[i], false)
      requires isSimple ==> Simple(lines)
      modifies this
      ensures out == Text(if isSimple then AsIs(lines) else Merged(lines))
    {
      hide Text, LayAll, Lay, Written, Started, Pending, Closing, Laid;
      var appendOnly, appendFirst, sourceSeen := true, false, false;
      var bufferStart: Option<nat>, bufferEnd: nat := None, 0;
      NothingScanned(marks, lines);
      for i := 0 to |lines|
        invariant Laid(marks, lines, i) && |marks| == |lines|
        invariant Scanned(lines, i, appendFirst, sourceSeen, bufferStart, bufferEnd)
        invariant appendOnly <==> isSimple || !sourceSeen
      {
        ghost var before, run := Started(lines[..i]), Pending(lines[..i]);
        ghost var was := marks;
        LineAdded(lines, i);
        LaidAt(marks, lines, i);
        if marks[i].line.Append? {
          LaidAppend(marks, lines, i);
          if bufferStart.Some? {
            Prepend(i, Plus);
          } else {
            assert marks[i := marks[i]] == marks;
            bufferStart := Some(i);
          }
          bufferEnd := i;
        } else {
          if bufferStart.Some? {
            if !sourceSeen {
              appendFirst := true;
            }
            CloseRun(bufferStart.value, bufferEnd, if !sourceSeen then Bare else AddToBuffer, run);
            bufferStart := None;
          } else {
            WrittenNone<E, P>(if before == [] then Bare else AddToBuffer);
          }
          LaidPlain(was, marks, lines, i);
          ClosingFirst(before, run, lines[i].code);
          sourceSeen := true;
          if !isSimple {
            appendOnly := false;
          }
        }
      }
      assert lines[..|lines|] == lines;
      out := Conclude(lines, isSimple, appendOnly, appendFirst, sourceSeen, bufferStart, bufferEnd);
    }

    /** After the last line: the pending run is returned, and the buffer declared. */
    method Conclude(lines: seq<Line<E, P>>, isSimple: bool, appendOnly: bool, appendFirst: bool, sourceSeen: bool,
                    bufferStart: Option<nat>, bufferEnd: nat) returns (out: Output<E, P>)
      requires |marks| == |lines| && (isSimple ==> Simple(lines)) && Laid(marks, lines, |lines|)
      requires lines[..|lines|] == lines && Scanned(lines, |lines|, appendFirst, sourceSeen, bufferStart, bufferEnd)
      requires appendOnly <==> isSimple || !sourceSeen
      modifies this
      ensures out == Text(if isSimple then AsIs(lines) else Merged(lines))
    {
      hide Text, LayAll, Lay, Written, Started, Pending, Closing;
      var header, footer := NoBuffer, Nothing;
      if appendOnly {
        if bufferStart.Some? {
          CloseRun(bufferStart.value, bufferEnd, ReturnIt, Pending(lines));
        } else if !sourceSeen {
          footer := ReturnEmptyText;
        }
      } else {
        header := if appendFirst then OpenBuffer else EmptyBuffer;
        if bufferStart.Some? {
          CloseRun(bufferStart.value, bufferEnd, ReturnBufferPlus, Pending(lines));
        } else {
          footer := ReturnTheBuffer;
        }
      }
      ghost var n := |lines| - |Pending(lines)|;
      assert marks == marks[..n] + marks[n..|lines|];
      assert Pending(lines) == [] ==> marks[n..|lines|] == [];
      Finish(lines, isSimple, marks);
      out := Output(header, marks, footer);
    }
  }

  /** What the loop knows after i lines: whether a plain line has been met and the buffer opened, and where the pending
      run lies. */
  ghost predicate Scanned<E, P>(lines: seq<Line<E, P>>, i: nat, appendFirst: bool, sourceSeen: bool,
                                bufferStart: Option<nat>, bufferEnd: nat)
    requires i <= |lines|
  {
    && (sourceSeen <==> Started(lines[..i]) != [])
    && (appendFirst <==> sourceSeen && Started(lines[..i])[0].Init?)
    && (sourceSeen && !appendFirst ==> Started(lines[..i])[0].InitEmpty?)
    && (bufferStart.Some? <==> Pending(lines[..i]) != [])
    && (bufferStart.Some? ==> bufferStart.value + |Pending(lines[..i])| == i && bufferEnd == i - 1)
  }

  lemma NothingScanned<E, P>(marks: seq<Mark<E, P>>, lines: seq<Line<E, P>>)
    requires |marks| == |lines| && forall i :: 0 <= i < |lines| ==> marks[i] == Mark(Bare, lines[i], false)
    ensures Laid(marks, lines, 0) && Scanned(lines, 0, false, false, None, 0)
  {
    hide LayAll, Written, Started, Pending;
    Empty<E, P>();
    assert lines[..0] == [];
  }

  /** The line at i has not been touched, and the pending run lies right before it. */
  lemma LaidAt<E, P>(marks: seq<Mark<E, P>>, lines: seq<Line<E, P>>, i: nat)
    requires Laid(marks, lines, i) && i < |lines|
    ensures marks[i] == Mark(Bare, lines[i], false) && |Pending(lines[..i])| <= i
    ensures marks[i - |Pending(lines[..i])|..i] == Written(Bare, Pending(lines[..i]), false)
  {
    hide LayAll, Written, Started, Pending;
  }
}
