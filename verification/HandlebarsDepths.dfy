/** Handlebars 1.0.0: a nested program takes the outer contexts it needs as parameters
    depth1, depth2, ... The module shows that the generated functions are closed and that
    depthN is the context N levels out, however deep programs nest. */
module HandlebarsDepths {
  import opened Wrappers

  // ---------- Syntax ----------

  datatype Id = Id(depth: nat, parts: seq<string>, isSimple: bool)

  datatype Param =
    | IdParam(id: Id, text: string)
    | DataParam(parts: seq<string>, scoped: bool)
    | StringParam(text: string)
    | IntegerParam(digits: string)
    | BooleanParam(text: string)

  datatype Pair = Pair(key: string, value: Param)

  /** The id is a path or a data reference; only a path can be simple. */
  datatype Mustache = Mustache(id: Param, params: seq<Param>, hash: Option<seq<Pair>>, escaped: bool)

  datatype Statement =
    | MustacheStatement(mustache: Mustache)
    | Block(mustache: Mustache, program: Option<Program>, inverse: Option<Program>)
    | Partial(name: string, context: Option<Id>)
    | Content(text: string)
    | Comment

  datatype Program = Program(statements: seq<Statement>)

  /** `knownHelpers` holds the built-in helpers and those of the caller. */
  datatype Options = Options(stringParams: bool, noEscape: bool, knownHelpers: set<string>, knownHelpersOnly: bool)

  datatype Kind = Simple | Helper | Ambiguous

  predicate Eligible(m: Mustache) { m.id.IdParam? && m.id.id.isSimple }

  /** A simple id has depth 0 and one part. */
  predicate Regular(m: Mustache) {
    (m.id.IdParam? || m.id.DataParam?) && (Eligible(m) ==> m.id.id.depth == 0 && |m.id.id.parts| == 1)
  }

  // ---------- Paths ----------

  predicate Navigates(part: string) { part == ".." || part == "." || part == "this" }

  /** The navigation all comes before the names. */
  predicate WellPlaced(parts: seq<string>) {
    forall i, j :: 0 <= i < j < |parts| && Navigates(parts[j]) ==> Navigates(parts[i])
  }

  function StepsOut(parts: seq<string>): nat {
    if parts == [] then 0 else StepsOut(parts[..|parts| - 1]) + if parts[|parts| - 1] == ".." then 1 else 0
  }

  function PartNames(parts: seq<string>): seq<string> {
    if parts == [] then []
    else PartNames(parts[..|parts| - 1]) + if Navigates(parts[|parts| - 1]) then [] else [parts[|parts| - 1]]
  }

  predicate AllNavigate(parts: seq<string>) { forall i :: 0 <= i < |parts| ==> Navigates(parts[i]) }

  lemma AllSnoc(parts: seq<string>, part: string)
    ensures AllNavigate(parts + [part]) <==> AllNavigate(parts) && Navigates(part)
  {
    if AllNavigate(parts + [part]) {
      assert (parts + [part])[|parts|] == part;
      forall i | 0 <= i < |parts| ensures Navigates(parts[i]) {
        assert (parts + [part])[i] == parts[i];
      }
    }
  }

  lemma {:induction false} NoNames(parts: seq<string>)
    ensures PartNames(parts) == [] <==> AllNavigate(parts)
  {
    if parts != [] {
      var n := |parts| - 1;
      hide AllNavigate, Navigates;
      NoNames(parts[..n]);
      AllSnoc(parts[..n], parts[n]);
      assert parts[..n] + [parts[n]] == parts;
    } else {
      assert AllNavigate(parts);
    }
  }

  lemma WellPlacedSnoc(parts: seq<string>, part: string)
    ensures WellPlaced(parts + [part]) <==> WellPlaced(parts) && (Navigates(part) ==> AllNavigate(parts))
  {
    hide Navigates;
    var all := parts + [part];
    assert all[|parts|] == part;
    if WellPlaced(all) {
      forall i, j | 0 <= i < j < |parts| && Navigates(parts[j]) ensures Navigates(parts[i]) {
        assert all[i] == parts[i] && all[j] == parts[j];
      }
      forall i | 0 <= i < |parts| && Navigates(part) ensures Navigates(parts[i]) {
        assert all[i] == parts[i];
      }
    }
  }

  lemma PrefixWellPlaced(parts: seq<string>, i: nat)
    requires i <= |parts| && WellPlaced(parts)
    ensures WellPlaced(parts[..i])
  {
    hide Navigates;
  }

  /** One more part. */
  lemma PartAdded(parts: seq<string>, i: nat)
    requires i < |parts|
    ensures WellPlaced(parts[..i + 1]) <==>
            WellPlaced(parts[..i]) && (Navigates(parts[i]) ==> PartNames(parts[..i]) == [])
    ensures StepsOut(parts[..i + 1]) == StepsOut(parts[..i]) + if parts[i] == ".." then 1 else 0
    ensures PartNames(parts[..i + 1]) == PartNames(parts[..i]) + if Navigates(parts[i]) then [] else [parts[i]]
    ensures Scoped(parts[..i + 1]) <==> Scoped(parts[..i]) || parts[i] == "." || parts[i] == "this"
  {
    hide Navigates, WellPlaced;
    assert parts[..i + 1] == parts[..i] + [parts[i]];
    WellPlacedSnoc(parts[..i], parts[i]);
    NoNames(parts[..i]);
  }

  predicate Scoped(parts: seq<string>) { "." in parts || "this" in parts }

  lemma SinglePart(part: string)
    ensures StepsOut([part]) == if part == ".." then 1 else 0
    ensures PartNames([part]) == if Navigates(part) then [] else [part]
    ensures Scoped([part]) <==> part == "." || part == "this"
  {
    hide WellPlaced, Navigates, StepsOut, PartNames, Scoped;
    PathStarts();
    PartAdded([part], 0);
    assert [part][..0] == [] && [part][..1] == [part];
  }

  /** The path of a list of parts; None is the thrown "Invalid path". Its depth counts the `..` parts, and it is
      simple exactly when it is one name. */
  method IdNode(parts: seq<string>) returns (id: Option<Id>)
    ensures id.Some? <==> WellPlaced(parts)
    ensures id.Some? ==> id.value.depth == StepsOut(parts) && id.value.parts == PartNames(parts)
    ensures id.Some? ==> (id.value.isSimple <==> |parts| == 1 && !Navigates(parts[0]))
    ensures id.Some? && id.value.isSimple ==> id.value.depth == 0 && id.value.parts == parts
  {
    hide WellPlaced, StepsOut, PartNames, Scoped;
    var dig, depth, isScoped := [], 0, false;
    PathStarts();
    for i := 0 to |parts|
      invariant WellPlaced(parts[..i]) && depth == StepsOut(parts[..i]) && dig == PartNames(parts[..i])
      invariant isScoped <==> Scoped(parts[..i])
    {
      var part := parts[i];
      PartAdded(parts, i);
      if part == ".." || part == "." || part == "this" {
        if |dig| > 0 {
          if WellPlaced(parts) {
            PrefixWellPlaced(parts, i + 1);
          }
          return None;
        } else if part == ".." {
          depth := depth + 1;
        } else {
          isScoped := true;
        }
      } else {
        dig := dig + [part];
      }
    }
    assert parts[..|parts|] == parts;
    if |parts| == 1 {
      assert parts == [parts[0]];
      SinglePart(parts[0]);
    }
    id := Some(Id(depth, dig, |parts| == 1 && !isScoped && depth == 0));
  }

  lemma PathStarts()
    ensures WellPlaced([]) && StepsOut([]) == 0 && PartNames([]) == [] && !Scoped([])
  {
  }

  function HeadName(m: Mustache): string
    requires Regular(m) && Eligible(m)
  {
    m.id.id.parts[0]
  }

  function Classify(m: Mustache, o: Options): Kind
    requires Regular(m)
  {
    if !Eligible(m) then Simple
    else if m.params != [] || m.hash.Some? || HeadName(m) in o.knownHelpers then Helper
    else if o.knownHelpersOnly then Simple
    else Ambiguous
  }

  // ---------- Opcodes ----------

  datatype Opcode =
    | GetContext(depth: nat)
    | LookupOnContext(name: string)
    | PushContext
    | Lookup(name: string)
    | LookupData
    | PushString(text: string)
    | PushLiteral(text: string)
    | PushDepth0
    | PushStringParam(value: string, typeName: string)
    | PushProgram(guid: Option<nat>)
    | EmptyHash
    | PushHash
    | AssignToHash(key: string)
    | PopHash
    | ResolvePossibleLambda
    | InvokeKnownHelper(paramSize: nat, name: string)
    | InvokeHelper(paramSize: nat, name: string)
    | InvokeAmbiguous(name: string, isBlock: bool)
    | InvokePartial(name: string)
    | BlockValue
    | AmbiguousBlockValue
    | Append
    | AppendEscaped
    | AppendContent(text: string)

  /** A compiled program; `depths` is its sorted list of outer contexts. */
  datatype Environment = Environment(opcodes: seq<Opcode>, children: seq<Environment>, depths: seq<nat>)

  // ---------- What visiting a node emits, and the depths it adds ----------

  /** Opcodes, children and depths in the order they are added. */
  datatype Visit = Visit(opcodes: seq<Opcode>, depths: seq<nat>)

  function Then(a: Visit, b: Visit): Visit { Visit(a.opcodes + b.opcodes, a.depths + b.depths) }

  function Emit(ops: seq<Opcode>): Visit { Visit(ops, []) }

  function Lookups(parts: seq<string>): seq<Opcode> {
    if parts == [] then [] else Lookups(parts[..|parts| - 1]) + [Lookup(parts[|parts| - 1])]
  }

  function VisitId(id: Id): Visit {
    Visit([GetContext(id.depth),
           if id.parts == [] || id.parts[0] == "" then PushContext else LookupOnContext(id.parts[0])] +
          (if id.parts == [] then [] else Lookups(id.parts[1..])), [id.depth])
  }

  function VisitParam(p: Param): Visit {
    match p
    case IdParam(id, _) => VisitId(id)
    case DataParam(parts, _) => Emit([LookupData] + Lookups(parts))
    case StringParam(t) => Emit([PushString(t)])
    case IntegerParam(d) => Emit([PushLiteral(d)])
    case BooleanParam(t) => Emit([PushLiteral(t)])
  }

  function TypeName(p: Param): string {
    match p
    case IdParam(_, _) => "ID"
    case DataParam(_, _) => "DATA"
    case StringParam(_) => "STRING"
    case IntegerParam(_) => "INTEGER"
    case BooleanParam(_) => "BOOLEAN"
  }

  function StringModeValue(p: Param): string {
    match p
    case IdParam(_, text) => text
    case DataParam(_, _) => "undefined"
    case StringParam(t) => t
    case IntegerParam(d) => d
    case BooleanParam(t) => t
  }

  function DepthOf(p: Param): nat { if p.IdParam? then p.id.depth else 0 }

  function VisitArgument(p: Param, o: Options): Visit {
    if o.stringParams then Visit([GetContext(DepthOf(p)), PushStringParam(StringModeValue(p), TypeName(p))],
                                 [DepthOf(p)])
    else VisitParam(p)
  }

  /** `while(i--)`: the last parameter first. */
  function VisitParams(params: seq<Param>, o: Options): Visit {
    if params == [] then Emit([]) else
      Then(VisitParams(params[1..], o), VisitArgument(params[0], o))
  }

  function VisitPairs(pairs: seq<Pair>, o: Options): Visit {
    if pairs == [] then Emit([]) else
      var n := |pairs| - 1;
      Then(VisitPairs(pairs[..n], o), Then(VisitArgument(pairs[n].value, o), Emit([AssignToHash(pairs[n].key)])))
  }

  function VisitHash(hash: Option<seq<Pair>>, o: Options): Visit {
    if hash.None? then Emit([EmptyHash])
    else Then(Emit([PushHash]), Then(VisitPairs(hash.value, o), Emit([PopHash])))
  }

  function VisitArguments(m: Mustache, g: Option<nat>, h: Option<nat>, o: Options): Visit {
    Then(VisitParams(m.params, o), Then(Emit([PushProgram(g), PushProgram(h)]), VisitHash(m.hash, o)))
  }

  function VisitSimple(m: Mustache): Visit {
    Then(if m.id.IdParam? && m.id.id.parts == [] then Visit([GetContext(m.id.id.depth), PushContext], [m.id.id.depth])
         else VisitParam(m.id),
         Emit([ResolvePossibleLambda]))
  }

  function VisitAmbiguous(m: Mustache, g: Option<nat>, h: Option<nat>): Visit
    requires Regular(m) && Eligible(m)
  {
    Emit([GetContext(m.id.id.depth), PushProgram(g), PushProgram(h), InvokeAmbiguous(HeadName(m), g.Some? || h.Some?)])
  }

  function VisitHelper(m: Mustache, g: Option<nat>, h: Option<nat>, o: Options): Visit
    requires Regular(m) && Eligible(m)
  {
    Then(VisitArguments(m, g, h, o),
         Emit([if HeadName(m) in o.knownHelpers then InvokeKnownHelper(|m.params|, HeadName(m))
               else InvokeHelper(|m.params|, HeadName(m))]))
  }

  function VisitMustache(m: Mustache, o: Options): Visit
    requires Regular(m)
  {
    Then(match Classify(m, o)
         case Simple => VisitSimple(m)
         case Helper => VisitHelper(m, None, None, o)
         case Ambiguous => VisitAmbiguous(m, None, None),
         Emit([if m.escaped && !o.noEscape then AppendEscaped else Append]))
  }

  function VisitBlock(m: Mustache, g: Option<nat>, h: Option<nat>, o: Options): Visit
    requires Regular(m)
  {
    Then(match Classify(m, o)
         case Helper => VisitHelper(m, g, h, o)
         case Simple => Then(VisitSimple(m), Emit([PushProgram(g), PushProgram(h), EmptyHash, BlockValue]))
         case Ambiguous =>
           Then(VisitAmbiguous(m, g, h), Emit([PushProgram(g), PushProgram(h), EmptyHash, AmbiguousBlockValue])),
         Emit([Append]))
  }

  function VisitPartial(name: string, context: Option<Id>): Visit {
    Then(if context.Some? then VisitId(context.value) else Emit([PushDepth0]), Emit([InvokePartial(name), Append]))
  }

  /** The depths a parent takes over from a child: those of two and more, one level closer. */
  function Shifted(depths: seq<nat>): seq<nat> {
    if depths == [] then [] else ShiftOne(depths[0]) + Shifted(depths[1..])
  }

  function ShiftOne(depth: nat): seq<nat> { if depth < 2 then [] else [depth - 1] }

  datatype Compiled = Compiled(opcodes: seq<Opcode>, children: seq<Environment>, depths: seq<nat>)

  predicate RegularStatement(s: Statement)
    decreases s
  {
    match s
    case MustacheStatement(m) => Regular(m)
    case Block(m, program, inverse) =>
      Regular(m) && (program.Some? ==> RegularProgram(program.value)) &&
        (inverse.Some? ==> RegularProgram(inverse.value))
    case _ => true
  }

  predicate RegularProgram(p: Program)
    decreases p
  {
    RegularBody(p.statements)
  }

  predicate RegularBody(body: seq<Statement>)
    decreases body
  {
    body == [] || (RegularStatement(body[0]) && RegularBody(body[1..]))
  }

  function CompileProgram(p: Program, o: Options): Environment
    requires RegularProgram(p)
    decreases p
  {
    var c := CompileBody(p.statements, o, 0);
    Environment(c.opcodes, c.children, Ascending(c.depths))
  }

  function CompileBody(body: seq<Statement>, o: Options, guid: nat): Compiled
    requires RegularBody(body)
    decreases body
  {
    if body == [] then Compiled([], [], []) else
      var first := CompileStatement(body[0], o, guid);
      var rest := CompileBody(body[1..], o, guid + |first.children|);
      Compiled(first.opcodes + rest.opcodes, first.children + rest.children, first.depths + rest.depths)
  }

  function CompileOptional(p: Option<Program>, o: Options): (r: seq<Environment>)
    requires p.Some? ==> RegularProgram(p.value)
    ensures |r| == if p.Some? then 1 else 0
    decreases p
  {
    if p.Some? then [CompileProgram(p.value, o)] else []
  }

  function ShiftedAll(children: seq<Environment>): seq<nat> {
    if children == [] then [] else Shifted(children[0].depths) + ShiftedAll(children[1..])
  }

  function Guid(p: Option<Program>, guid: nat): Option<nat> { if p.Some? then Some(guid) else None }

  function CompileStatement(s: Statement, o: Options, guid: nat): Compiled
    requires RegularStatement(s)
    decreases s
  {
    match s
    case MustacheStatement(m) =>
      var v := VisitMustache(m, o);
      Compiled(v.opcodes, [], v.depths)
    case Block(m, program, inverse) =>
      var first := CompileOptional(program, o);
      var second := CompileOptional(inverse, o);
      var v := VisitBlock(m, Guid(program, guid), Guid(inverse, guid + |first|), o);
      Compiled(v.opcodes, first + second, ShiftedAll(first + second) + v.depths)
    case Partial(name, context) =>
      var v := VisitPartial(name, context);
      Compiled(v.opcodes, [], v.depths)
    case Content(text) => Compiled([AppendContent(text)], [], [])
    case Comment => Compiled([], [], [])
  }

  // ---------- Ascending lists ----------

  /** The positive numbers of a list, each once, in order. */
  function Ascending(list: seq<nat>): seq<nat> {
    if list == [] then [] else InsertOnce(list[0], Ascending(list[1..]))
  }

  function InsertOnce(d: nat, list: seq<nat>): seq<nat> {
    if d == 0 then list
    else if list == [] then [d]
    else if d < list[0] then [d] + list
    else if d == list[0] then list
    else [list[0]] + InsertOnce(d, list[1..])
  }

  predicate Increasing(list: seq<nat>) { forall i, j :: 0 <= i < j < |list| ==> list[i] < list[j] }

  lemma IncreasingCons(d: nat, list: seq<nat>)
    requires Increasing(list) && forall x :: x in list ==> d < x
    ensures Increasing([d] + list)
  {
    var r := [d] + list;
    forall i, j | 0 <= i < j < |r|
      ensures r[i] < r[j]
    {
      assert r[j] == list[j - 1] && r[j] in list;
    }
  }

  lemma {:induction false} InsertOnceIs(d: nat, list: seq<nat>)
    requires Increasing(list)
    ensures Increasing(InsertOnce(d, list)) && forall x :: x in InsertOnce(d, list) <==> x in list || (x == d && d > 0)
    decreases |list|
  {
    if d != 0 && list != [] && d > list[0] {
      InsertOnceIs(d, list[1..]);
      var rest := InsertOnce(d, list[1..]);
      assert list == [list[0]] + list[1..];
      forall x | x in rest
        ensures list[0] < x
      {
        if x in list[1..] {
          var i :| 0 <= i < |list[1..]| && list[1..][i] == x;
          assert list[i + 1] == x;
        }
      }
      IncreasingCons(list[0], rest);
    }
  }

  lemma {:induction false} AscendingIs(list: seq<nat>)
    ensures Increasing(Ascending(list)) && forall x :: x in Ascending(list) <==> x in list && x > 0
  {
    if list != [] {
      AscendingIs(list[1..]);
      InsertOnceIs(list[0], Ascending(list[1..]));
      assert list == [list[0]] + list[1..];
    }
  }

  lemma {:induction false} IncreasingUnique(a: seq<nat>, b: seq<nat>)
    requires Increasing(a) && Increasing(b) && forall x :: x in a <==> x in b
    ensures a == b
    decreases |a|
  {
    NoMembers(a);
    NoMembers(b);
    if a != [] {
      assert a[0] in a && a[0] in b;
      assert b[0] in b && b[0] in a;
      assert a[0] == b[0];
      forall x
        ensures x in a[1..] <==> x in b[1..]
      {
        TailMembers(a, x);
        TailMembers(b, x);
      }
      IncreasingUnique(a[1..], b[1..]);
    }
  }

  lemma NoMembers(a: seq<nat>)
    ensures a == [] <==> forall x :: x !in a
  {
    if a != [] {
      assert a[0] in a;
    }
  }

  lemma TailMembers(a: seq<nat>, x: nat)
    requires Increasing(a) && a != []
    ensures x in a[1..] <==> x in a && x != a[0]
  {
    assert a == [a[0]] + a[1..];
  }

  // ---------- Depth names in the generated code ----------

  /** The names depthN that the code of one opcode mentions, when lastContext is `last`; a program
      reference passes, for each depth d of the child, the name one level closer. */
  function Names(op: Opcode, last: nat, children: seq<Environment>): seq<nat> {
    match op
    case LookupOnContext(_) => [last]
    case PushContext => [last]
    case PushStringParam(_, _) => [last]
    case InvokeHelper(_, _) => [last, 0]
    case InvokeAmbiguous(_, _) => [0, last]
    case InvokeKnownHelper(_, _) => [0]
    case PushDepth0 => [0]
    case BlockValue => [0]
    case AmbiguousBlockValue => [0]
    case ResolvePossibleLambda => [0]
    case PushProgram(g) => if g.Some? && g.value < |children| then CallNames(children[g.value].depths) else []
    case _ => []
  }

  /** The arguments of programExpression. */
  function CallNames(depths: seq<nat>): (r: seq<nat>)
    ensures |r| == |depths|
  {
    if depths == [] then [] else [if depths[0] <= 1 then 0 else depths[0] - 1] + CallNames(depths[1..])
  }

  function Mentions(ops: seq<Opcode>, last: nat, children: seq<Environment>): seq<nat>
    decreases |ops|
  {
    if ops == [] then []
    else if ops[0].GetContext? then Mentions(ops[1..], ops[0].depth, children)
    else Names(ops[0], last, children) + Mentions(ops[1..], last, children)
  }

  function LastContext(ops: seq<Opcode>, last: nat): nat {
    if ops == [] then last else LastContext(ops[1..], if ops[0].GetContext? then ops[0].depth else last)
  }

  // ---------- The depth list follows from opcodes and children ----------

  predicate Gets(ops: seq<Opcode>, d: nat) { exists i :: 0 <= i < |ops| && ops[i] == GetContext(d) }

  lemma GetsConcat(a: seq<Opcode>, b: seq<Opcode>, d: nat)
    ensures Gets(a + b, d) <==> Gets(a, d) || Gets(b, d)
  {
    if Gets(a, d) {
      var i :| 0 <= i < |a| && a[i] == GetContext(d);
      assert (a + b)[i] == GetContext(d);
    }
    if Gets(b, d) {
      var i :| 0 <= i < |b| && b[i] == GetContext(d);
      assert (a + b)[|a| + i] == GetContext(d);
    }
    if Gets(a + b, d) {
      var i :| 0 <= i < |a + b| && (a + b)[i] == GetContext(d);
      if i < |a| {
        assert a[i] == GetContext(d);
      } else {
        assert b[i - |a|] == GetContext(d);
      }
    }
  }

  /** Visiting adds exactly the positive depths its getContext opcodes name. */
  ghost predicate Faithful(v: Visit) {
    forall d: nat :: d > 0 ==> (d in v.depths <==> Gets(v.opcodes, d))
  }

  lemma ThenFaithful(a: Visit, b: Visit)
    requires Faithful(a) && Faithful(b)
    ensures Faithful(Then(a, b))
  {
    hide Gets;
    forall d: nat | d > 0
      ensures d in Then(a, b).depths <==> Gets(Then(a, b).opcodes, d)
    {
      GetsConcat(a.opcodes, b.opcodes, d);
    }
  }

  lemma EmitFaithful(ops: seq<Opcode>)
    requires forall i :: 0 <= i < |ops| ==> !ops[i].GetContext? || ops[i].depth == 0
    ensures Faithful(Emit(ops))
  {
  }

  lemma {:induction false} LookupsPlain(parts: seq<string>)
    ensures forall i :: 0 <= i < |Lookups(parts)| ==> Lookups(parts)[i].Lookup?
  {
    if parts != [] {
      LookupsPlain(parts[..|parts| - 1]);
    }
  }

  lemma IdFaithful(id: Id)
    ensures Faithful(VisitId(id))
  {
    if id.parts != [] {
      LookupsPlain(id.parts[1..]);
    }
    assert VisitId(id).opcodes[0] == GetContext(id.depth);
  }

  lemma ArgumentFaithful(p: Param, o: Options)
    ensures Faithful(VisitArgument(p, o))
  {
    var v := VisitArgument(p, o);
    if o.stringParams {
      assert v.opcodes[0] == GetContext(DepthOf(p));
    } else if p.IdParam? {
      IdFaithful(p.id);
    } else if p.DataParam? {
      LookupsPlain(p.parts);
    }
  }

  lemma {:induction false} ParamsFaithful(params: seq<Param>, o: Options)
    ensures Faithful(VisitParams(params, o))
  {
    hide VisitArgument, Faithful;
    if params == [] {
      EmitFaithful([]);
    } else {
      ParamsFaithful(params[1..], o);
      ArgumentFaithful(params[0], o);
      ThenFaithful(VisitParams(params[1..], o), VisitArgument(params[0], o));
    }
  }

  lemma {:induction false} PairsFaithful(pairs: seq<Pair>, o: Options)
    ensures Faithful(VisitPairs(pairs, o))
  {
    hide VisitArgument, Faithful, Then;
    if pairs == [] {
      EmitFaithful([]);
    } else {
      var n := |pairs| - 1;
      PairsFaithful(pairs[..n], o);
      ArgumentFaithful(pairs[n].value, o);
      EmitFaithful([AssignToHash(pairs[n].key)]);
      ThenFaithful(VisitArgument(pairs[n].value, o), Emit([AssignToHash(pairs[n].key)]));
      ThenFaithful(VisitPairs(pairs[..n], o), Then(VisitArgument(pairs[n].value, o),
                                                   Emit([AssignToHash(pairs[n].key)])));
    }
  }

  lemma ArgumentsFaithful(m: Mustache, g: Option<nat>, h: Option<nat>, o: Options)
    ensures Faithful(VisitArguments(m, g, h, o))
  {
    hide VisitParams, VisitPairs, Faithful, Then, Emit;
    ParamsFaithful(m.params, o);
    EmitFaithful([PushProgram(g), PushProgram(h)]);
    EmitFaithful([EmptyHash]);
    if m.hash.Some? {
      PairsFaithful(m.hash.value, o);
      EmitFaithful([PushHash]);
      EmitFaithful([PopHash]);
      ThenFaithful(VisitPairs(m.hash.value, o), Emit([PopHash]));
      ThenFaithful(Emit([PushHash]), Then(VisitPairs(m.hash.value, o), Emit([PopHash])));
    }
    ThenFaithful(Emit([PushProgram(g), PushProgram(h)]), VisitHash(m.hash, o));
    ThenFaithful(VisitParams(m.params, o), Then(Emit([PushProgram(g), PushProgram(h)]), VisitHash(m.hash, o)));
  }

  lemma HeadFaithful(m: Mustache)
    requires Regular(m)
    ensures Faithful(if m.id.IdParam? && m.id.id.parts == [] then
                     Visit([GetContext(m.id.id.depth), PushContext], [m.id.id.depth])
                     else VisitParam(m.id))
  {
    if m.id.IdParam? {
      IdFaithful(m.id.id);
      assert Visit([GetContext(m.id.id.depth), PushContext], [m.id.id.depth]).opcodes[0] == GetContext(m.id.id.depth);
    } else {
      LookupsPlain(m.id.parts);
    }
  }

  lemma SimpleFaithful(m: Mustache)
    requires Regular(m)
    ensures Faithful(VisitSimple(m))
  {
    hide Faithful;
    var head := if m.id.IdParam? && m.id.id.parts == [] then
      Visit([GetContext(m.id.id.depth), PushContext], [m.id.id.depth])
                else VisitParam(m.id);
    HeadFaithful(m);
    EmitFaithful([ResolvePossibleLambda]);
    ThenFaithful(head, Emit([ResolvePossibleLambda]));
  }

  lemma CallFaithful(m: Mustache, g: Option<nat>, h: Option<nat>, o: Options)
    requires Regular(m)
    ensures Faithful(VisitSimple(m))
    ensures Eligible(m) ==> Faithful(VisitHelper(m, g, h, o)) && Faithful(VisitAmbiguous(m, g, h))
  {
    hide Faithful, VisitArguments;
    SimpleFaithful(m);
    if Eligible(m) {
      ArgumentsFaithful(m, g, h, o);
      var call := if HeadName(m) in o.knownHelpers then InvokeKnownHelper(|m.params|, HeadName(m))
        else InvokeHelper(|m.params|, HeadName(m));
      EmitFaithful([call]);
      ThenFaithful(VisitArguments(m, g, h, o), Emit([call]));
      EmitFaithful([GetContext(0), PushProgram(g), PushProgram(h), InvokeAmbiguous(HeadName(m), g.Some? || h.Some?)]);
    }
  }

  lemma MustacheFaithful(m: Mustache, o: Options)
    requires Regular(m)
    ensures Faithful(VisitMustache(m, o))
  {
    hide Faithful, VisitSimple, VisitHelper, VisitAmbiguous;
    CallFaithful(m, None, None, o);
    var op := if m.escaped && !o.noEscape then AppendEscaped else Append;
    EmitFaithful([op]);
    var v := match Classify(m, o)
             case Simple => VisitSimple(m)
             case Helper => VisitHelper(m, None, None, o)
             case Ambiguous => VisitAmbiguous(m, None, None);
    ThenFaithful(v, Emit([op]));
  }

  lemma BlockFaithful(m: Mustache, g: Option<nat>, h: Option<nat>, o: Options)
    requires Regular(m)
    ensures Faithful(VisitBlock(m, g, h, o))
  {
    hide Faithful, VisitSimple, VisitHelper, VisitAmbiguous;
    CallFaithful(m, g, h, o);
    var simple, ambiguous := [PushProgram(g), PushProgram(h), EmptyHash, BlockValue],
      [PushProgram(g), PushProgram(h), EmptyHash, AmbiguousBlockValue];
    EmitFaithful(simple);
    EmitFaithful(ambiguous);
    EmitFaithful([Append]);
    ThenFaithful(VisitSimple(m), Emit(simple));
    var v := match Classify(m, o)
             case Helper => VisitHelper(m, g, h, o)
             case Simple => Then(VisitSimple(m), Emit(simple))
             case Ambiguous => Then(VisitAmbiguous(m, g, h), Emit(ambiguous));
    if Eligible(m) {
      ThenFaithful(VisitAmbiguous(m, g, h), Emit(ambiguous));
    }
    ThenFaithful(v, Emit([Append]));
  }

  lemma PartialFaithful(name: string, context: Option<Id>)
    ensures Faithful(VisitPartial(name, context))
  {
    hide Faithful, VisitId;
    EmitFaithful([PushDepth0]);
    EmitFaithful([InvokePartial(name), Append]);
    if context.Some? {
      IdFaithful(context.value);
    }
    ThenFaithful(if context.Some? then VisitId(context.value)
                 else Emit([PushDepth0]), Emit([InvokePartial(name), Append]));
  }

  lemma {:induction false} ShiftedAllConcat(a: seq<Environment>, b: seq<Environment>)
    ensures ShiftedAll(a + b) == ShiftedAll(a) + ShiftedAll(b)
  {
    if a == [] {
      assert a + b == b;
    } else {
      assert (a + b)[1..] == a[1..] + b;
      ShiftedAllConcat(a[1..], b);
    }
  }

  /** The positive depths added are those of the opcodes and those passed on to the children. */
  ghost predicate Accounted(c: Compiled) {
    forall d: nat :: d > 0 ==> (d in c.depths <==> Gets(c.opcodes, d) || d in ShiftedAll(c.children))
  }

  lemma StatementAccounted(s: Statement, o: Options, guid: nat)
    requires RegularStatement(s)
    ensures Accounted(CompileStatement(s, o, guid))
  {
    hide VisitMustache, VisitBlock, VisitPartial, Gets, CompileProgram;
    match s
    case MustacheStatement(m) => MustacheFaithful(m, o);
    case Block(m, program, inverse) =>
      BlockFaithful(m, Guid(program, guid), Guid(inverse, guid + |CompileOptional(program, o)|), o);
    case Partial(name, context) => PartialFaithful(name, context);
    case Content(text) => NoneGot(AppendContent(text));
    case Comment =>
      NothingGot();
  }

  lemma NoneGot(op: Opcode)
    requires !op.GetContext?
    ensures forall d :: !Gets([op], d)
  {
  }

  lemma NothingGot()
    ensures forall d :: !Gets([], d)
  {
  }

  lemma {:induction false} BodyAccounted(body: seq<Statement>, o: Options, guid: nat)
    requires RegularBody(body)
    ensures Accounted(CompileBody(body, o, guid))
    decreases |body|
  {
    hide Gets, CompileStatement, RegularStatement, ShiftedAll;
    if body == [] {
      NothingGot();
      NoneShifted();
    } else {
      var first := CompileStatement(body[0], o, guid);
      var rest := CompileBody(body[1..], o, guid + |first.children|);
      StatementAccounted(body[0], o, guid);
      BodyAccounted(body[1..], o, guid + |first.children|);
      ShiftedAllConcat(first.children, rest.children);
      forall d: nat
        ensures Gets(first.opcodes + rest.opcodes, d) <==> Gets(first.opcodes, d) || Gets(rest.opcodes, d)
      {
        GetsConcat(first.opcodes, rest.opcodes, d);
      }
    }
  }

  lemma NoneShifted()
    ensures ShiftedAll([]) == []
  {
  }

  /** The depth list is determined by the opcodes and the children's lists. */
  ghost predicate Determined(env: Environment) {
    && Increasing(env.depths)
    && forall d: nat :: d in env.depths <==> d > 0 && (Gets(env.opcodes, d) || d in ShiftedAll(env.children))
  }

  ghost predicate AllDetermined(env: Environment)
    decreases env
  {
    Determined(env) && EachDetermined(env.children)
  }

  ghost predicate EachDetermined(envs: seq<Environment>)
    decreases envs
  {
    forall i :: 0 <= i < |envs| ==> AllDetermined(envs[i])
  }

  lemma {:induction false} ProgramDetermined(p: Program, o: Options)
    requires RegularProgram(p)
    ensures AllDetermined(CompileProgram(p, o))
    decreases p, 1
  {
    hide CompileBody, Gets, ShiftedAll, Increasing, Ascending, RegularBody;
    var c := CompileBody(p.statements, o, 0);
    BodyAccounted(p.statements, o, 0);
    AscendingIs(c.depths);
    BodyDetermined(p.statements, o, 0);
    var env := CompileProgram(p, o);
    forall d: nat
      ensures d in env.depths <==> d > 0 && (Gets(env.opcodes, d) || d in ShiftedAll(env.children))
    {
    }
  }

  lemma EachConcat(a: seq<Environment>, b: seq<Environment>)
    requires EachDetermined(a) && EachDetermined(b)
    ensures EachDetermined(a + b)
  {
    hide AllDetermined;
  }

  lemma {:induction false} BodyDetermined(body: seq<Statement>, o: Options, guid: nat)
    requires RegularBody(body)
    ensures EachDetermined(CompileBody(body, o, guid).children)
    decreases body
  {
    hide AllDetermined, CompileStatement, RegularStatement, EachDetermined;
    if body != [] {
      var first := CompileStatement(body[0], o, guid);
      StatementDetermined(body[0], o, guid);
      BodyDetermined(body[1..], o, guid + |first.children|);
      EachConcat(first.children, CompileBody(body[1..], o, guid + |first.children|).children);
    } else {
      NoneDetermined();
    }
  }

  lemma NoneDetermined()
    ensures EachDetermined([])
  {
  }

  lemma {:induction false} StatementDetermined(s: Statement, o: Options, guid: nat)
    requires RegularStatement(s)
    ensures EachDetermined(CompileStatement(s, o, guid).children)
    decreases s
  {
    hide AllDetermined, CompileProgram, RegularProgram, VisitMustache, VisitBlock;
    if s.Block? {
      if s.program.Some? {
        ProgramDetermined(s.program.value, o);
      }
      if s.inverse.Some? {
        ProgramDetermined(s.inverse.value, o);
      }
    }
  }

  // ---------- Sharing ----------

  /** `equals`: the same opcodes, as many children, and equal children. */
  predicate Equals(a: Environment, b: Environment)
    decreases a
  {
    a.opcodes == b.opcodes && |a.children| == |b.children| &&
    forall i :: 0 <= i < |a.children| ==> Equals(a.children[i], b.children[i])
  }

  lemma {:induction false} SameShifted(a: seq<Environment>, b: seq<Environment>)
    requires |a| == |b| && forall i :: 0 <= i < |a| ==> a[i].depths == b[i].depths
    ensures ShiftedAll(a) == ShiftedAll(b)
    decreases |a|
  {
    if a != [] {
      SameShifted(a[1..], b[1..]);
    }
  }

  /** Environments that share one function take the same parameters. */
  lemma {:induction false} EqualsKeepsDepths(a: Environment, b: Environment)
    requires AllDetermined(a) && AllDetermined(b) && Equals(a, b)
    ensures a.depths == b.depths
    decreases a
  {
    hide Gets, Increasing, ShiftedAll;
    forall i | 0 <= i < |a.children|
      ensures a.children[i].depths == b.children[i].depths
    {
      EqualsKeepsDepths(a.children[i], b.children[i]);
    }
    SameShifted(a.children, b.children);
    IncreasingUnique(a.depths, b.depths);
  }

  // ---------- Generated functions are closed ----------

  lemma {:induction false} CallNamesShifted(depths: seq<nat>, n: nat)
    ensures n in CallNames(depths) ==> n == 0 || n in Shifted(depths)
  {
    if depths != [] {
      CallNamesShifted(depths[1..], n);
    }
  }

  lemma {:induction false} ShiftedAmong(children: seq<Environment>, i: nat, n: nat)
    requires i < |children| && n in Shifted(children[i].depths)
    ensures n in ShiftedAll(children)
    decreases i
  {
    hide Shifted;
    if i > 0 {
      ShiftedAmong(children[1..], i - 1, n);
    }
  }

  lemma {:induction false} MentionsFrom(ops: seq<Opcode>, last: nat, children: seq<Environment>, n: nat)
    requires n in Mentions(ops, last, children)
    ensures n == 0 || n == last || Gets(ops, n) || n in ShiftedAll(children)
    decreases |ops|
  {
    hide CallNames, ShiftedAll;
    assert ops == [ops[0]] + ops[1..];
    if ops[0].GetContext? {
      MentionsFrom(ops[1..], ops[0].depth, children, n);
      assert Gets([ops[0]], ops[0].depth) by {
        assert [ops[0]][0] == GetContext(ops[0].depth);
      }
      GetsConcat([ops[0]], ops[1..], n);
    } else if n in Names(ops[0], last, children) {
      if ops[0].PushProgram? && ops[0].guid.Some? && ops[0].guid.value < |children| {
        CallNamesShifted(children[ops[0].guid.value].depths, n);
        if n != 0 {
          ShiftedAmong(children, ops[0].guid.value, n);
        }
      }
    } else {
      MentionsFrom(ops[1..], last, children, n);
      GetsConcat([ops[0]], ops[1..], n);
    }
  }

  /** Every depth name a function mentions is depth0 or one of its parameters. */
  ghost predicate Closed(env: Environment) {
    forall n: nat :: n in Mentions(env.opcodes, 0, env.children) ==> n == 0 || n in env.depths
  }

  lemma GeneratedClosed(env: Environment)
    requires Determined(env)
    ensures Closed(env)
  {
    hide Gets, Mentions, Increasing;
    forall n: nat | n in Mentions(env.opcodes, 0, env.children)
      ensures n == 0 || n in env.depths
    {
      MentionsFrom(env.opcodes, 0, env.children, n);
    }
  }

  // ---------- depthN is the context N levels out ----------

  /** The parameters bound in a call: depth0, and the listed depths in order. */
  function Bind<C>(depths: seq<nat>, args: seq<Option<C>>, context: C): map<nat, Option<C>>
    requires |args| == |depths|
  {
    if depths == [] then map[0 := Some(context)] else Bind(depths[1..], args[1..], context)[depths[0] := args[0]]
  }

  function Values<C>(b: map<nat, Option<C>>, names: seq<nat>): (r: seq<Option<C>>)
    ensures |r| == |names|
  {
    if names == [] then [] else [if names[0] in b then b[names[0]] else None] + Values(b, names[1..])
  }

  /** A helper runs a child program on some context: programWithDepth has kept the arguments of the call site. */
  function Enter<C>(b: map<nat, Option<C>>, child: Environment, context: C): map<nat, Option<C>> {
    Bind(child.depths, Values(b, CallNames(child.depths)), context)
  }

  function Undefineds<C>(n: nat): (r: seq<Option<C>>)
    ensures |r| == n
  {
    if n == 0 then [] else [None] + Undefineds<C>(n - 1)
  }

  /** The main function is called with its context alone. */
  function Root<C>(env: Environment, context: C): map<nat, Option<C>> {
    Bind(env.depths, Undefineds(|env.depths|), context)
  }

  /** The context N levels out; undefined beyond the outermost. */
  function Outer<C>(contexts: seq<C>, n: nat): Option<C> { if n < |contexts| then Some(contexts[n]) else None }

  ghost predicate Right<C>(env: Environment, b: map<nat, Option<C>>, contexts: seq<C>) {
    (forall d :: d in b <==> d == 0 || d in env.depths) && forall d :: d in b ==> b[d] == Outer(contexts, d)
  }

  lemma {:induction false} BindValues<C>(depths: seq<nat>, args: seq<Option<C>>, context: C, contexts: seq<C>)
    requires |args| == |depths| && contexts != [] && contexts[0] == context
    requires forall i :: 0 <= i < |depths| ==> depths[i] > 0 && args[i] == Outer(contexts, depths[i])
    ensures var b := Bind(depths, args, context);
            (forall d :: d in b <==> d == 0 || d in depths) && forall d :: d in b ==> b[d] == Outer(contexts, d)
  {
    if depths != [] {
      BindValues(depths[1..], args[1..], context, contexts);
      assert depths == [depths[0]] + depths[1..];
    }
  }

  lemma {:induction false} ValuesAt<C>(b: map<nat, Option<C>>, depths: seq<nat>, i: nat)
    requires i < |depths|
    ensures var n := if depths[i] <= 1 then 0 else depths[i] - 1;
            Values(b, CallNames(depths))[i] == if n in b then b[n] else None
    decreases i
  {
    assert CallNames(depths)[1..] == CallNames(depths[1..]);
    if i > 0 {
      ValuesAt(b, depths[1..], i - 1);
    }
  }

  lemma {:induction false} ShiftedMember(depths: seq<nat>, i: nat)
    requires i < |depths| && depths[i] >= 2
    ensures depths[i] - 1 in Shifted(depths)
    decreases i
  {
    if i > 0 {
      ShiftedMember(depths[1..], i - 1);
    }
  }

  /** Entering a child keeps every name right: its depthd is the parent's depth(d-1). */
  lemma EnterRight<C>(env: Environment, b: map<nat, Option<C>>, contexts: seq<C>, g: nat, context: C)
    requires AllDetermined(env) && Right(env, b, contexts) && g < |env.children|
    ensures Right(env.children[g], Enter(b, env.children[g], context), [context] + contexts)
  {
    hide Gets, CallNames, Values, Shifted, ShiftedAll, Increasing;
    var child := env.children[g];
    assert AllDetermined(child);
    var args := Values(b, CallNames(child.depths));
    forall i | 0 <= i < |child.depths|
      ensures child.depths[i] > 0 && args[i] == Outer([context] + contexts, child.depths[i])
    {
      var d := child.depths[i];
      assert d in child.depths;
      ValuesAt(b, child.depths, i);
      if d >= 2 {
        ShiftedMember(child.depths, i);
        ShiftedAmong(env.children, g, d - 1);
        assert d - 1 in env.depths;
      }
    }
    BindValues(child.depths, args, context, [context] + contexts);
  }

  /** One level of nesting: which child runs, and on which context. */
  datatype Level<C> = Level(guid: nat, context: C)

  function EnvironmentAt<C>(env: Environment, path: seq<Level<C>>): Option<Environment> {
    if path == [] then Some(env)
    else if path[0].guid >= |env.children| then None
    else EnvironmentAt(env.children[path[0].guid], path[1..])
  }

  function BindingsAt<C>(env: Environment, b: map<nat, Option<C>>, path: seq<Level<C>>): map<nat, Option<C>>
    requires EnvironmentAt(env, path).Some?
  {
    if path == [] then b
    else BindingsAt(env.children[path[0].guid], Enter(b, env.children[path[0].guid], path[0].context), path[1..])
  }

  function ContextsAt<C>(contexts: seq<C>, path: seq<Level<C>>): seq<C>
    decreases |path|
  {
    if path == [] then contexts else ContextsAt([path[0].context] + contexts, path[1..])
  }

  lemma {:induction false} NestedRight<C>(env: Environment, b: map<nat, Option<C>>, contexts: seq<C>,
                                          path: seq<Level<C>>)
    requires AllDetermined(env) && Right(env, b, contexts) && EnvironmentAt(env, path).Some?
    ensures var inner := EnvironmentAt(env, path).value;
            AllDetermined(inner) && Right(inner, BindingsAt(env, b, path), ContextsAt(contexts, path))
    decreases |path|
  {
    hide Right, Enter, Determined;
    if path != [] {
      var child := env.children[path[0].guid];
      EnterRight(env, b, contexts, path[0].guid, path[0].context);
      NestedRight(child, Enter(b, child, path[0].context), [path[0].context] + contexts, path[1..]);
    }
  }

  lemma RootRight<C>(env: Environment, context: C)
    requires Determined(env)
    ensures Right(env, Root(env, context), [context])
  {
    hide Gets, ShiftedAll, Increasing;
    forall i | 0 <= i < |env.depths|
      ensures env.depths[i] > 0 && Undefineds<C>(|env.depths|)[i] == Outer([context], env.depths[i])
    {
      assert env.depths[i] in env.depths;
      UndefinedAt<C>(|env.depths|, i);
    }
    BindValues(env.depths, Undefineds<C>(|env.depths|), context, [context]);
  }

  lemma {:induction false} UndefinedAt<C>(n: nat, i: nat)
    requires i < n
    ensures Undefineds<C>(n)[i] == None
    decreases i
  {
    if i > 0 {
      UndefinedAt<C>(n - 1, i - 1);
    }
  }

  /** For every template and every way its programs nest at run-time, each depthN the running code mentions is
      bound, to the context N levels out. */
  lemma DepthNIsNLevelsOut<C>(p: Program, o: Options, context: C, path: seq<Level<C>>, n: nat)
    requires RegularProgram(p)
    requires var env := CompileProgram(p, o);
             EnvironmentAt(env, path).Some? &&
             n in Mentions(EnvironmentAt(env, path).value.opcodes, 0, EnvironmentAt(env, path).value.children)
    ensures var b := BindingsAt(CompileProgram(p, o), Root(CompileProgram(p, o), context), path);
            n in b && b[n] == Outer(ContextsAt([context], path), n)
  {
    hide CompileProgram, Mentions, RegularProgram, BindingsAt, ContextsAt, Root;
    var env := CompileProgram(p, o);
    ProgramDetermined(p, o);
    RootRight(env, context);
    NestedRight(env, Root(env, context), [context], path);
    var inner := EnvironmentAt(env, path).value;
    GeneratedClosed(inner);
  }

  // ---------- Which depth a path is looked up at ----------

  lemma {:induction false} MentionsConcat(a: seq<Opcode>, b: seq<Opcode>, last: nat, children: seq<Environment>)
    ensures Mentions(a + b, last, children) == Mentions(a, last, children) + Mentions(b, LastContext(a, last), children)
    ensures LastContext(a + b, last) == LastContext(b, LastContext(a, last))
    decreases |a|
  {
    hide Names;
    if a == [] {
      assert a + b == b;
    } else {
      assert (a + b)[1..] == a[1..] + b;
      MentionsConcat(a[1..], b, if a[0].GetContext? then a[0].depth else last, children);
    }
  }

  lemma {:induction false} LookupsMention(parts: seq<string>, last: nat, children: seq<Environment>)
    ensures Mentions(Lookups(parts), last, children) == [] && LastContext(Lookups(parts), last) == last
  {
    if parts != [] {
      var n := |parts| - 1;
      LookupsMention(parts[..n], last, children);
      MentionsConcat(Lookups(parts[..n]), [Lookup(parts[n])], last, children);
    }
  }

  /** A path is looked up in the context as many levels out as it has `../` steps. */
  lemma IdMentions(id: Id, last: nat, children: seq<Environment>)
    ensures Mentions(VisitId(id).opcodes, last, children) == [id.depth] &&
            LastContext(VisitId(id).opcodes, last) == id.depth
  {
    var second := if id.parts == [] || id.parts[0] == "" then PushContext else LookupOnContext(id.parts[0]);
    var head := [GetContext(id.depth), second];
    var rest := if id.parts == [] then [] else Lookups(id.parts[1..]);
    OneGet(id.depth, last, children);
    OneMention(second, id.depth, children);
    MentionsConcat([GetContext(id.depth)], [second], last, children);
    assert [GetContext(id.depth)] + [second] == head;
    if id.parts != [] {
      LookupsMention(id.parts[1..], id.depth, children);
    }
    MentionsConcat(head, rest, last, children);
  }

  /** The depths of the paths among a helper's arguments, in the order they are visited. */
  function ArgumentDepths(p: Param, o: Options): seq<nat> {
    if o.stringParams then [DepthOf(p)] else if p.IdParam? then [p.id.depth] else []
  }

  function ParamDepths(params: seq<Param>, o: Options): seq<nat> {
    if params == [] then [] else ParamDepths(params[1..], o) + ArgumentDepths(params[0], o)
  }

  function PairDepths(pairs: seq<Pair>, o: Options): seq<nat> {
    if pairs == [] then [] else PairDepths(pairs[..|pairs| - 1], o) + ArgumentDepths(pairs[|pairs| - 1].value, o)
  }

  function PathDepths(m: Mustache, o: Options): seq<nat> {
    ParamDepths(m.params, o) + if m.hash.Some? then PairDepths(m.hash.value, o) else []
  }

  function LastOr(depths: seq<nat>, last: nat): nat { if depths == [] then last else depths[|depths| - 1] }

  /** Each argument mentions its own depth and nothing else, and leaves it as lastContext. */
  ghost predicate Looks(ops: seq<Opcode>, depths: seq<nat>) {
    && (forall last: nat, children: seq<Environment> :: Mentions(ops, last, children) == depths)
    && (forall last: nat :: LastContext(ops, last) == LastOr(depths, last))
  }

  lemma ArgumentLooks(p: Param, o: Options)
    ensures Looks(VisitArgument(p, o).opcodes, ArgumentDepths(p, o))
  {
    hide VisitArgument, ArgumentDepths, Mentions, LastContext;
    forall last: nat, children: seq<Environment>
      ensures Mentions(VisitArgument(p, o).opcodes, last, children) == ArgumentDepths(p, o)
    {
      ArgumentMentions(p, o, last, children);
    }
    forall last: nat
      ensures LastContext(VisitArgument(p, o).opcodes, last) == LastOr(ArgumentDepths(p, o), last)
    {
      ArgumentMentions(p, o, last, []);
    }
  }

  lemma ArgumentMentions(p: Param, o: Options, last: nat, children: seq<Environment>)
    ensures Mentions(VisitArgument(p, o).opcodes, last, children) == ArgumentDepths(p, o)
    ensures LastContext(VisitArgument(p, o).opcodes, last) == LastOr(ArgumentDepths(p, o), last)
  {
    if o.stringParams {
      var value := PushStringParam(StringModeValue(p), TypeName(p));
      OneGet(DepthOf(p), last, children);
      OneMention(value, DepthOf(p), children);
      MentionsConcat([GetContext(DepthOf(p))], [value], last, children);
      assert [GetContext(DepthOf(p))] + [value] == VisitArgument(p, o).opcodes;
    } else if p.IdParam? {
      IdMentions(p.id, last, children);
    } else if p.DataParam? {
      LookupsMention(p.parts, last, children);
      OneMention(LookupData, last, children);
      MentionsConcat([LookupData], Lookups(p.parts), last, children);
    } else {
      OneMention(VisitArgument(p, o).opcodes[0], last, children);
    }
  }

  lemma OneGet(d: nat, last: nat, children: seq<Environment>)
    ensures Mentions([GetContext(d)], last, children) == [] && LastContext([GetContext(d)], last) == d
  {
    var ops := [GetContext(d)];
    assert ops[1..] == [] && Mentions(ops[1..], d, children) == [] && LastContext(ops[1..], d) == d;
  }

  lemma OneMention(op: Opcode, last: nat, children: seq<Environment>)
    requires !op.GetContext?
    ensures Mentions([op], last, children) == Names(op, last, children) && LastContext([op], last) == last
  {
    hide Names;
    var ops := [op];
    assert ops[1..] == [] && Mentions(ops[1..], last, children) == [] && LastContext(ops[1..], last) == last;
  }

  lemma LooksConcat(a: seq<Opcode>, x: seq<nat>, b: seq<Opcode>, y: seq<nat>)
    requires Looks(a, x) && Looks(b, y)
    ensures Looks(a + b, x + y)
  {
    hide Mentions, LastContext;
    forall last: nat, children: seq<Environment>
      ensures Mentions(a + b, last, children) == x + y
    {
      MentionsConcat(a, b, last, children);
    }
    forall last: nat
      ensures LastContext(a + b, last) == LastOr(x + y, last)
    {
      MentionsConcat(a, b, last, []);
    }
  }

  lemma LooksNothing(op: Opcode)
    requires op.AssignToHash? || op.PushHash? || op.PopHash? || op.EmptyHash?
    ensures Looks([op], []) && Looks([], [])
  {
    forall last: nat, children: seq<Environment>
      ensures Mentions([op], last, children) == []
    {
      OneMention(op, last, children);
    }
    forall last: nat
      ensures LastContext([op], last) == last
    {
      OneMention(op, last, []);
    }
  }

  lemma {:induction false} ParamsLook(params: seq<Param>, o: Options)
    ensures Looks(VisitParams(params, o).opcodes, ParamDepths(params, o))
  {
    hide Looks, VisitArgument, ArgumentDepths;
    if params == [] {
      LooksNothing(EmptyHash);
    } else {
      ParamsLook(params[1..], o);
      ArgumentLooks(params[0], o);
      LooksConcat(VisitParams(params[1..], o).opcodes, ParamDepths(params[1..], o), VisitArgument(params[0], o).opcodes,
                  ArgumentDepths(params[0], o));
    }
  }

  lemma {:induction false} PairsLook(pairs: seq<Pair>, o: Options)
    ensures Looks(VisitPairs(pairs, o).opcodes, PairDepths(pairs, o))
  {
    hide Looks, VisitArgument, ArgumentDepths;
    if pairs == [] {
      LooksNothing(EmptyHash);
    } else {
      var n := |pairs| - 1;
      var value := VisitArgument(pairs[n].value, o).opcodes;
      var depths := ArgumentDepths(pairs[n].value, o);
      PairsLook(pairs[..n], o);
      ArgumentLooks(pairs[n].value, o);
      LooksNothing(AssignToHash(pairs[n].key));
      LooksConcat(value, depths, [AssignToHash(pairs[n].key)], []);
      assert depths + [] == depths;
      LooksConcat(VisitPairs(pairs[..n], o).opcodes, PairDepths(pairs[..n], o), value + [AssignToHash(pairs[n].key)],
                  depths);
    }
  }

  lemma HashLooks(hash: Option<seq<Pair>>, o: Options)
    ensures Looks(VisitHash(hash, o).opcodes, if hash.Some? then PairDepths(hash.value, o) else [])
  {
    hide Looks, VisitPairs, PairDepths;
    LooksNothing(EmptyHash);
    if hash.Some? {
      var depths := PairDepths(hash.value, o);
      LooksNothing(PushHash);
      LooksNothing(PopHash);
      PairsLook(hash.value, o);
      LooksConcat(VisitPairs(hash.value, o).opcodes, depths, [PopHash], []);
      assert depths + [] == depths && [] + depths == depths;
      LooksConcat([PushHash], [], VisitPairs(hash.value, o).opcodes + [PopHash], depths);
    }
  }

  lemma ProgramsKeepContext(g: Option<nat>, h: Option<nat>, last: nat)
    ensures LastContext([PushProgram(g), PushProgram(h)], last) == last
  {
    OneMention(PushProgram(g), last, []);
    OneMention(PushProgram(h), last, []);
    MentionsConcat([PushProgram(g)], [PushProgram(h)], last, []);
    assert [PushProgram(g)] + [PushProgram(h)] == [PushProgram(g), PushProgram(h)];
  }

  /** The arguments of a call leave the depth of their last path as lastContext. */
  lemma ArgumentsContext(m: Mustache, g: Option<nat>, h: Option<nat>, o: Options, last: nat)
    ensures LastContext(VisitArguments(m, g, h, o).opcodes, last) == LastOr(PathDepths(m, o), last)
  {
    hide Mentions, LastContext, VisitParams, VisitHash, ParamDepths, PairDepths;
    var params, hash := VisitParams(m.params, o).opcodes, VisitHash(m.hash, o).opcodes;
    var programs := [PushProgram(g), PushProgram(h)];
    ParamsLook(m.params, o);
    HashLooks(m.hash, o);
    var d1 := LastContext(params, last);
    ProgramsKeepContext(g, h, d1);
    MentionsConcat(params, programs + hash, last, []);
    MentionsConcat(programs, hash, d1, []);
  }

  /** The depths of the contexts that a statement gets, in order; its programs are compiled by themselves. */
  function CallDepths(m: Mustache, o: Options): seq<nat>
    requires Regular(m)
  {
    match Classify(m, o)
    case Simple => if m.id.IdParam? then [m.id.id.depth] else []
    case Ambiguous => [0]
    case Helper => PathDepths(m, o)
  }

  function StatementDepths(s: Statement, o: Options): seq<nat>
    requires RegularStatement(s)
  {
    match s
    case MustacheStatement(m) => CallDepths(m, o)
    case Block(m, _, _) => CallDepths(m, o)
    case Partial(_, context) => if context.Some? then [context.value.depth] else []
    case _ => []
  }

  function BodyDepths(body: seq<Statement>, o: Options): seq<nat>
    requires RegularBody(body)
  {
    if body == [] then [] else StatementDepths(body[0], o) + BodyDepths(body[1..], o)
  }

  predicate NoGets(ops: seq<Opcode>) { forall i :: 0 <= i < |ops| ==> !ops[i].GetContext? }

  /** Opcodes after the visit that get no context leave lastContext alone. */
  lemma {:induction false} ContextKept(ops: seq<Opcode>, more: seq<Opcode>, last: nat)
    requires NoGets(more)
    ensures LastContext(ops + more, last) == LastContext(ops, last)
    decreases |more|
  {
    hide LastContext;
    if more == [] {
      assert ops + more == ops;
    } else {
      var n := |more| - 1;
      ContextKept(ops, more[..n], last);
      OneMention(more[n], LastContext(ops, last), []);
      MentionsConcat(ops + more[..n], [more[n]], last, []);
      assert ops + more == ops + more[..n] + [more[n]];
    }
  }

  lemma SimpleContext(m: Mustache, o: Options, last: nat)
    requires Regular(m)
    ensures LastContext(VisitSimple(m).opcodes, last) == if m.id.IdParam? then m.id.id.depth else last
  {
    hide LastContext, Mentions;
    if m.id.IdParam? && m.id.id.parts == [] {
      OneGet(m.id.id.depth, last, []);
      ContextKept([GetContext(m.id.id.depth)], [PushContext, ResolvePossibleLambda], last);
      assert [GetContext(m.id.id.depth)] + [PushContext, ResolvePossibleLambda] == VisitSimple(m).opcodes;
    } else {
      ContextKept(VisitParam(m.id).opcodes, [ResolvePossibleLambda], last);
      if m.id.IdParam? {
        IdMentions(m.id.id, last, []);
      } else {
        OneMention(LookupData, last, []);
        LookupsMention(m.id.parts, last, []);
        MentionsConcat([LookupData], Lookups(m.id.parts), last, []);
      }
    }
  }

  lemma AmbiguousContext(m: Mustache, g: Option<nat>, h: Option<nat>, last: nat)
    requires Regular(m) && Eligible(m)
    ensures LastContext(VisitAmbiguous(m, g, h).opcodes, last) == 0
  {
    hide LastContext;
    var rest := [PushProgram(g), PushProgram(h), InvokeAmbiguous(HeadName(m), g.Some? || h.Some?)];
    OneGet(0, last, []);
    ContextKept([GetContext(0)], rest, last);
    assert VisitAmbiguous(m, g, h).opcodes == [GetContext(0)] + rest;
  }

  lemma HelperContext(m: Mustache, g: Option<nat>, h: Option<nat>, o: Options, last: nat)
    requires Regular(m) && Eligible(m)
    ensures LastContext(VisitHelper(m, g, h, o).opcodes, last) == LastOr(PathDepths(m, o), last)
  {
    hide LastContext, VisitArguments;
    ArgumentsContext(m, g, h, o, last);
    var call := if HeadName(m) in o.knownHelpers then InvokeKnownHelper(|m.params|, HeadName(m))
                else InvokeHelper(|m.params|, HeadName(m));
    ContextKept(VisitArguments(m, g, h, o).opcodes, [call], last);
  }

  lemma MustacheContext(m: Mustache, o: Options, last: nat)
    requires Regular(m)
    ensures LastContext(VisitMustache(m, o).opcodes, last) == LastOr(CallDepths(m, o), last)
  {
    hide LastContext, VisitSimple, VisitAmbiguous, VisitHelper;
    SimpleContext(m, o, last);
    var call := match Classify(m, o)
      case Simple => VisitSimple(m).opcodes
      case Helper => VisitHelper(m, None, None, o).opcodes
      case Ambiguous => VisitAmbiguous(m, None, None).opcodes;
    ContextKept(call, [if m.escaped && !o.noEscape then AppendEscaped else Append], last);
    if Eligible(m) {
      AmbiguousContext(m, None, None, last);
      HelperContext(m, None, None, o, last);
    }
  }

  lemma BlockContext(m: Mustache, g: Option<nat>, h: Option<nat>, o: Options, last: nat)
    requires Regular(m)
    ensures LastContext(VisitBlock(m, g, h, o).opcodes, last) == LastOr(CallDepths(m, o), last)
  {
    hide LastContext, VisitSimple, VisitAmbiguous, VisitHelper;
    SimpleContext(m, o, last);
    var programs := [PushProgram(g), PushProgram(h), EmptyHash];
    match Classify(m, o)
    case Simple =>
      ContextKept(VisitSimple(m).opcodes, programs + [BlockValue, Append], last);
      assert VisitBlock(m, g, h, o).opcodes == VisitSimple(m).opcodes + (programs + [BlockValue, Append]);
    case Ambiguous =>
      AmbiguousContext(m, g, h, last);
      ContextKept(VisitAmbiguous(m, g, h).opcodes, programs + [AmbiguousBlockValue, Append], last);
      assert VisitBlock(m, g, h, o).opcodes == VisitAmbiguous(m, g, h).opcodes +
             (programs + [AmbiguousBlockValue, Append]);
    case Helper =>
      HelperContext(m, g, h, o, last);
      ContextKept(VisitHelper(m, g, h, o).opcodes, [Append], last);
  }

  lemma PartialContext(name: string, context: Option<Id>, last: nat)
    ensures LastContext(VisitPartial(name, context).opcodes, last) == if context.Some? then context.value.depth
            else last
  {
    hide LastContext, VisitId, Mentions;
    if context.Some? {
      IdMentions(context.value, last, []);
      ContextKept(VisitId(context.value).opcodes, [InvokePartial(name), Append], last);
    } else {
      ContextKept([], [PushDepth0, InvokePartial(name), Append], last);
      NothingLeft(last);
      assert [] + [PushDepth0, InvokePartial(name), Append] == VisitPartial(name, context).opcodes;
    }
  }

  lemma NothingLeft(last: nat)
    ensures LastContext([], last) == last
  {
  }

  lemma StatementContext(s: Statement, o: Options, guid: nat, last: nat)
    requires RegularStatement(s)
    ensures LastContext(CompileStatement(s, o, guid).opcodes, last) == LastOr(StatementDepths(s, o), last)
  {
    hide LastContext, VisitMustache, VisitBlock, VisitPartial, CallDepths, CompileOptional;
    NothingLeft(last);
    match s
    case MustacheStatement(m) => MustacheContext(m, o, last);
    case Block(m, program, inverse) =>
      BlockContext(m, Guid(program, guid), Guid(inverse, guid + |CompileOptional(program, o)|), o, last);
    case Partial(name, context) => PartialContext(name, context, last);
    case Content(text) => OneMention(AppendContent(text), last, []);
    case Comment =>
  }

  /** Statements leave the depth of the last path on their own level as lastContext. */
  lemma {:induction false} BodyContext(body: seq<Statement>, o: Options, guid: nat, last: nat)
    requires RegularBody(body)
    ensures LastContext(CompileBody(body, o, guid).opcodes, last) == LastOr(BodyDepths(body, o), last)
    decreases |body|
  {
    hide LastContext, CompileStatement, StatementDepths;
    if body == [] {
      NothingLeft(last);
    } else {
      var first := CompileStatement(body[0], o, guid);
      var rest := CompileBody(body[1..], o, guid + |first.children|);
      StatementContext(body[0], o, guid, last);
      BodyContext(body[1..], o, guid + |first.children|, LastContext(first.opcodes, last));
      MentionsConcat(first.opcodes, rest.opcodes, last, []);
    }
  }

  lemma {:induction false} BodyAt(body: seq<Statement>, i: nat, o: Options, guid: nat) returns (after: seq<Opcode>)
    requires RegularBody(body) && i < |body|
    ensures RegularBody(body[..i]) && RegularStatement(body[i])
    ensures var before := CompileBody(body[..i], o, guid);
      CompileBody(body, o, guid).opcodes ==
      before.opcodes + CompileStatement(body[i], o, guid + |before.children|).opcodes + after
    decreases |body|
  {
    hide CompileStatement;
    if i == 0 {
      after := CompileBody(body[1..], o, guid + |CompileStatement(body[0], o, guid).children|).opcodes;
    } else {
      var first := CompileStatement(body[0], o, guid);
      after := BodyAt(body[1..], i - 1, o, guid + |first.children|);
      assert body[..i][1..] == body[1..][..i - 1];
    }
  }

  /** The call of an unknown helper, with its arguments. */
  predicate CallsUnknown(s: Statement, o: Options)
    requires RegularStatement(s)
  {
    && (s.MustacheStatement? || s.Block?)
    && Classify(s.mustache, o) == Helper && HeadName(s.mustache) !in o.knownHelpers
  }

  function ArgumentsOf(s: Statement, o: Options, guid: nat): seq<Opcode>
    requires RegularStatement(s) && CallsUnknown(s, o)
  {
    VisitArguments(s.mustache, if s.Block? then Guid(s.program, guid) else None,
                   if s.Block? then Guid(s.inverse, guid + |CompileOptional(s.program, o)|) else None, o).opcodes
  }

  lemma CallOpcodes(s: Statement, o: Options, guid: nat, last: nat) returns (after: seq<Opcode>)
    requires RegularStatement(s) && CallsUnknown(s, o)
    ensures CompileStatement(s, o, guid).opcodes ==
            ArgumentsOf(s, o, guid) + [InvokeHelper(|s.mustache.params|, HeadName(s.mustache))] + after
    ensures LastContext(ArgumentsOf(s, o, guid), last) == LastOr(PathDepths(s.mustache, o), last)
  {
    hide VisitArguments, CompileOptional, LastContext, PathDepths;
    var m := s.mustache;
    if s.Block? {
      ArgumentsContext(m, Guid(s.program, guid), Guid(s.inverse, guid + |CompileOptional(s.program, o)|), o, last);
      after := [Append];
    } else {
      ArgumentsContext(m, None, None, o, last);
      after := [if m.escaped && !o.noEscape then AppendEscaped else Append];
    }
  }

  /** The name of an unknown helper has depth 0, and as a fallback it is looked up in the context of the path visited
      last, among its arguments or else in the statements before it: in its own context exactly when there is no such
      path or it has depth 0. */
  lemma FallbackInOwnContextIff(body: seq<Statement>, i: nat, o: Options, children: seq<Environment>)
      returns (before: seq<Opcode>, after: seq<Opcode>, used: nat)
    requires RegularBody(body) && i < |body| && RegularBody(body[..i]) && RegularStatement(body[i])
    requires CallsUnknown(body[i], o)
    ensures var start := CompileBody(body[..i], o, 0);
      before == start.opcodes + ArgumentsOf(body[i], o, |start.children|)
    ensures var m, ops := body[i].mustache, CompileBody(body, o, 0).opcodes;
      && ops == before + [InvokeHelper(|m.params|, HeadName(m))] + after
      && Mentions(ops, 0, children) == Mentions(before, 0, children) + [used, 0] + Mentions(after, used, children)
    ensures var depths := BodyDepths(body[..i], o) + PathDepths(body[i].mustache, o);
      used == 0 <==> depths == [] || depths[|depths| - 1] == 0
  {
    hide Mentions, LastContext, CompileBody, CompileStatement, BodyDepths, PathDepths, ArgumentsOf;
    var m := body[i].mustache;
    var call := InvokeHelper(|m.params|, HeadName(m));
    var start := CompileBody(body[..i], o, 0);
    var args := ArgumentsOf(body[i], o, |start.children|);
    var later := BodyAt(body, i, o, 0);
    BodyContext(body[..i], o, 0, 0);
    var rest := CallOpcodes(body[i], o, |start.children|, LastContext(start.opcodes, 0));
    before, after := start.opcodes + args, rest + later;
    used := LastContext(before, 0);
    assert CompileBody(body, o, 0).opcodes == before + [call] + after;
    MentionsConcat(start.opcodes, args, 0, children);
    OneMention(call, used, children);
    MentionsConcat(before, [call], 0, children);
    MentionsConcat(before + [call], after, 0, children);
  }

  // ---------- The compiler ----------

  /** No scoped data reference is visited, and no unknown helper is called under knownHelpersOnly. */
  predicate AcceptsParam(p: Param) { p.DataParam? ==> !p.scoped }

  predicate AcceptsArgument(p: Param, o: Options) { o.stringParams || AcceptsParam(p) }

  predicate AcceptsMustache(m: Mustache, o: Options)
    requires Regular(m)
  {
    match Classify(m, o)
    case Simple => AcceptsParam(m.id)
    case Ambiguous => true
    case Helper =>
      && (forall i :: 0 <= i < |m.params| ==> AcceptsArgument(m.params[i], o))
      && (m.hash.Some? ==> forall i :: 0 <= i < |m.hash.value| ==> AcceptsArgument(m.hash.value[i].value, o))
      && (HeadName(m) in o.knownHelpers || !o.knownHelpersOnly)
  }

  predicate AcceptsStatement(s: Statement, o: Options)
    requires RegularStatement(s)
    decreases s
  {
    match s
    case MustacheStatement(m) => AcceptsMustache(m, o)
    case Block(m, program, inverse) => AcceptsOptional(program, o) && AcceptsOptional(inverse, o) &&
      AcceptsMustache(m, o)
    case _ => true
  }

  predicate AcceptsOptional(p: Option<Program>, o: Options)
    requires p.Some? ==> RegularProgram(p.value)
    decreases p
  {
    p.Some? ==> AcceptsProgram(p.value, o)
  }

  predicate AcceptsProgram(p: Program, o: Options)
    requires RegularProgram(p)
    decreases p
  {
    AcceptsBody(p.statements, o)
  }

  predicate AcceptsBody(body: seq<Statement>, o: Options)
    requires RegularBody(body)
    decreases body
  {
    body == [] || (AcceptsStatement(body[0], o) && AcceptsBody(body[1..], o))
  }

  /** The list holds the positive numbers of `added`, each once. */
  ghost predicate Lists(list: seq<nat>, added: seq<nat>) {
    (forall d :: d in list <==> d in added && d > 0) && forall i, j :: 0 <= i < j < |list| ==> list[i] != list[j]
  }

  lemma ListsSorted(list: seq<nat>, added: seq<nat>)
    requires Lists(list, added)
    ensures Ascending(list) == Ascending(added)
  {
    AscendingIs(list);
    AscendingIs(added);
    IncreasingUnique(Ascending(list), Ascending(added));
  }

  lemma PairVisited(pairs: seq<Pair>, i: nat, o: Options)
    requires i < |pairs|
    ensures var before, value := VisitPairs(pairs[..i], o), VisitArgument(pairs[i].value, o);
      VisitPairs(pairs[..i + 1], o) ==
      Visit(before.opcodes + (value.opcodes + [AssignToHash(pairs[i].key)]), before.depths + value.depths)
  {
    hide VisitArgument;
    assert pairs[..i + 1][..i] == pairs[..i];
  }

  lemma NoPairs(o: Options)
    ensures VisitPairs([], o) == Visit([], [])
  {
  }

  class Compiler {
    const options: Options
    var opcodes: seq<Opcode>
    var children: seq<Environment>
    var guid: nat
    var depths: seq<nat>
    ghost var added: seq<nat>

    ghost predicate Valid()
      reads this
    {
      Lists(depths, added) && guid == |children|
    }

    constructor (options: Options)
      ensures this.options == options && Valid() && opcodes == [] && children == [] && added == []
    {
      this.options := options;
      opcodes, children, guid, depths, added := [], [], 0, [], [];
    }

    method Add(op: Opcode)
      requires Valid()
      modifies `opcodes
      ensures Valid() && opcodes == old(opcodes) + [op]
    {
      opcodes := opcodes + [op];
    }

    method AddDepth(depth: nat)
      requires Valid()
      modifies `depths, `added
      ensures Valid() && added == old(added) + [depth]
    {
      added := added + [depth];
      if depth != 0 && depth !in depths {
        depths := depths + [depth];
      }
    }

    method AddLookups(parts: seq<string>)
      requires Valid()
      modifies `opcodes
      ensures Valid() && opcodes == old(opcodes) + Lookups(parts)
    {
      for i := 0 to |parts|
        invariant Valid() && opcodes == old(opcodes) + Lookups(parts[..i])
      {
        assert parts[..i + 1][..i] == parts[..i];
        Add(Lookup(parts[i]));
      }
      assert parts[..|parts|] == parts;
    }

    method ID(id: Id)
      requires Valid()
      modifies `opcodes, `depths, `added
      ensures Valid() && opcodes == old(opcodes) + VisitId(id).opcodes && added == old(added) + VisitId(id).depths
    {
      hide Lookups, Lists;
      AddDepth(id.depth);
      Add(GetContext(id.depth));
      if id.parts == [] || id.parts[0] == "" {
        Add(PushContext);
      } else {
        Add(LookupOnContext(id.parts[0]));
      }
      if id.parts != [] {
        AddLookups(id.parts[1..]);
      }
    }

    method DATA(parts: seq<string>, scoped: bool) returns (ok: bool)
      requires Valid()
      modifies `opcodes
      ensures Valid() && (ok <==> !scoped)
      ensures ok ==> opcodes == old(opcodes) + ([LookupData] + Lookups(parts))
    {
      if scoped {
        return false;
      }
      Add(LookupData);
      AddLookups(parts);
      return true;
    }

    method Accept(p: Param) returns (ok: bool)
      requires Valid()
      modifies `opcodes, `depths, `added
      ensures Valid() && (ok <==> AcceptsParam(p))
      ensures ok ==> opcodes == old(opcodes) + VisitParam(p).opcodes && added == old(added) + VisitParam(p).depths
    {
      hide Lookups, Lists;
      ok := true;
      match p
      case IdParam(id, _) => ID(id);
      case DataParam(parts, scoped) => ok := DATA(parts, scoped);
      case StringParam(t) => Add(PushString(t));
      case IntegerParam(d) => Add(PushLiteral(d));
      case BooleanParam(t) => Add(PushLiteral(t));
    }

    method Argument(p: Param) returns (ok: bool)
      requires Valid()
      modifies `opcodes, `depths, `added
      ensures Valid() && (ok <==> AcceptsArgument(p, options))
      ensures ok ==>
              opcodes == old(opcodes) + VisitArgument(p, options).opcodes &&
              added == old(added) + VisitArgument(p, options).depths
    {
      hide Lists, VisitParam;
      if options.stringParams {
        AddDepth(DepthOf(p));
        Add(GetContext(DepthOf(p)));
        Add(PushStringParam(StringModeValue(p), TypeName(p)));
        ok := true;
      } else {
        ok := Accept(p);
      }
    }

    method PushParams(params: seq<Param>) returns (ok: bool)
      requires Valid()
      modifies `opcodes, `depths, `added
      ensures Valid() && (ok <==> forall i :: 0 <= i < |params| ==> AcceptsArgument(params[i], options))
      ensures ok ==>
              opcodes == old(opcodes) + VisitParams(params, options).opcodes &&
              added == old(added) + VisitParams(params, options).depths
    {
      hide Lists, VisitArgument, AcceptsArgument;
      var i := |params|;
      while i > 0
        invariant 0 <= i <= |params| && Valid()
        invariant forall j :: i <= j < |params| ==> AcceptsArgument(params[j], options)
        invariant opcodes == old(opcodes) + VisitParams(params[i..], options).opcodes
        invariant added == old(added) + VisitParams(params[i..], options).depths
      {
        i := i - 1;
        assert params[i..][1..] == params[i + 1..];
        ok := Argument(params[i]);
        if !ok {
          return;
        }
      }
      assert params[0..] == params;
      ok := true;
    }

    method PushPairs(pairs: seq<Pair>) returns (ok: bool)
      requires Valid()
      modifies `opcodes, `depths, `added
      ensures Valid() && (ok <==> forall i :: 0 <= i < |pairs| ==> AcceptsArgument(pairs[i].value, options))
      ensures ok ==>
              opcodes == old(opcodes) + VisitPairs(pairs, options).opcodes &&
              added == old(added) + VisitPairs(pairs, options).depths
    {
      hide Lists, VisitArgument, AcceptsArgument, VisitPairs;
      NoPairs(options);
      for i := 0 to |pairs|
        invariant Valid() && forall j :: 0 <= j < i ==> AcceptsArgument(pairs[j].value, options)
        invariant opcodes == old(opcodes) + VisitPairs(pairs[..i], options).opcodes
        invariant added == old(added) + VisitPairs(pairs[..i], options).depths
      {
        PairVisited(pairs, i, options);
        ok := Argument(pairs[i].value);
        if !ok {
          return;
        }
        Add(AssignToHash(pairs[i].key));
      }
      assert pairs[..|pairs|] == pairs;
      ok := true;
    }

    method Hash(hash: Option<seq<Pair>>) returns (ok: bool)
      requires Valid()
      modifies `opcodes, `depths, `added
      ensures Valid()
      ensures ok <==> (hash.Some? ==> forall i :: 0 <= i < |hash.value| ==>
                       AcceptsArgument(hash.value[i].value, options))
      ensures ok ==>
              opcodes == old(opcodes) + VisitHash(hash, options).opcodes &&
              added == old(added) + VisitHash(hash, options).depths
    {
      hide Lists, VisitPairs, AcceptsArgument;
      if hash.None? {
        Add(EmptyHash);
        return true;
      }
      Add(PushHash);
      ok := PushPairs(hash.value);
      if ok {
        Add(PopHash);
      }
    }

    method SetupFullMustacheParams(m: Mustache, g: Option<nat>, h: Option<nat>) returns (ok: bool)
      requires Valid()
      modifies `opcodes, `depths, `added
      ensures Valid()
      ensures ok <==> (forall i :: 0 <= i < |m.params| ==> AcceptsArgument(m.params[i], options)) &&
                      (m.hash.Some? ==> forall i :: 0 <= i < |m.hash.value| ==>
                       AcceptsArgument(m.hash.value[i].value, options))
      ensures ok ==> opcodes == old(opcodes) + VisitArguments(m, g, h, options).opcodes &&
                     added == old(added) + VisitArguments(m, g, h, options).depths
    {
      hide Lists, AcceptsArgument, VisitParams, VisitHash;
      ok := PushParams(m.params);
      if !ok {
        return;
      }
      Add(PushProgram(g));
      Add(PushProgram(h));
      ok := Hash(m.hash);
    }

    method SimpleMustache(m: Mustache) returns (ok: bool)
      requires Valid() && Regular(m)
      modifies `opcodes, `depths, `added
      ensures Valid() && (ok <==> AcceptsParam(m.id))
      ensures ok ==> opcodes == old(opcodes) + VisitSimple(m).opcodes && added == old(added) + VisitSimple(m).depths
    {
      hide Lists, VisitId;
      ok := true;
      if m.id.DataParam? {
        ok := DATA(m.id.parts, m.id.scoped);
        if !ok {
          return;
        }
      } else if m.id.id.parts != [] {
        ID(m.id.id);
      } else {
        AddDepth(m.id.id.depth);
        Add(GetContext(m.id.id.depth));
        Add(PushContext);
      }
      Add(ResolvePossibleLambda);
    }

    method Call(m: Mustache, g: Option<nat>, h: Option<nat>) returns (ok: bool)
      requires Valid() && Regular(m)
      modifies `opcodes, `depths, `added
      ensures Valid() && (ok <==> AcceptsMustache(m, options))
      ensures ok ==> var v := match Classify(m, options)
                              case Simple => VisitSimple(m)
                              case Helper => VisitHelper(m, g, h, options)
                              case Ambiguous => VisitAmbiguous(m, g, h);
                     opcodes == old(opcodes) + v.opcodes && added == old(added) + v.depths
    {
      hide Lists, AcceptsArgument, VisitArguments, VisitSimple;
      var kind := Classify(m, options);
      if kind.Simple? {
        ok := SimpleMustache(m);
      } else if kind.Helper? {
        ok := SetupFullMustacheParams(m, g, h);
        if !ok {
          return;
        }
        var name := HeadName(m);
        if name in options.knownHelpers {
          Add(InvokeKnownHelper(|m.params|, name));
        } else if options.knownHelpersOnly {
          return false;
        } else {
          Add(InvokeHelper(|m.params|, name));
        }
      } else {
        Add(GetContext(m.id.id.depth));
        Add(PushProgram(g));
        Add(PushProgram(h));
        Add(InvokeAmbiguous(HeadName(m), g.Some? || h.Some?));
        ok := true;
      }
    }

    /** Compiles a nested program and takes over the depths it needs from further out. */
    method CompileNested(p: Option<Program>) returns (ok: bool, id: Option<nat>)
      requires Valid() && (p.Some? ==> RegularProgram(p.value))
      modifies this
      ensures Valid() && (ok <==> AcceptsOptional(p, options)) && opcodes == old(opcodes)
      ensures ok ==> children == old(children) + CompileOptional(p, options) && id == Guid(p, old(guid)) &&
                     added == old(added) + ShiftedAll(CompileOptional(p, options))
      decreases p, 0
    {
      ok, id := true, None;
      if p.None? {
        return;
      }
      hide CompileProgram, Lists;
      var child := new Compiler(options);
      var result;
      ok, result := child.CompileRoot(p.value);
      if ok {
        id := Some(guid);
        guid := guid + 1;
        children := children + [result];
        for i := 0 to |result.depths|
          invariant Valid() && added == old(added) + Shifted(result.depths[..i])
          invariant opcodes == old(opcodes) && children == old(children) + [result] && guid == |children| &&
                    guid == old(guid) + 1
        {
          ShiftedSnoc(result.depths, i);
          if result.depths[i] >= 2 {
            AddDepth(result.depths[i] - 1);
          }
        }
        assert result.depths[..|result.depths|] == result.depths;
        OneShifted(result);
      }
    }

    method Visit(s: Statement) returns (ok: bool)
      requires Valid() && RegularStatement(s)
      modifies this
      ensures Valid() && (ok <==> AcceptsStatement(s, options))
      ensures ok ==> var c := CompileStatement(s, options, old(guid));
                     opcodes == old(opcodes) + c.opcodes && children == old(children) + c.children &&
                       added == old(added) + c.depths
      decreases s
    {
      hide Lists, CompileProgram, AcceptsMustache, AcceptsProgram, RegularProgram, VisitSimple, VisitHelper,
           VisitAmbiguous, ShiftedAll, VisitBlock;
      ok := true;
      match s
      case MustacheStatement(m) =>
        ok := Call(m, None, None);
        if !ok {
          return;
        }
        Add(if m.escaped && !options.noEscape then AppendEscaped else Append);
      case Block(m, program, inverse) =>
        ok := BlockNode(s, m, program, inverse);
      case Partial(name, context) =>
        PartialNode(name, context);
      case Content(text) => Add(AppendContent(text));
      case Comment =>
    }

    /** The programs of a block first, then its mustache. */
    method BlockNode(ghost s: Statement, m: Mustache, program: Option<Program>, inverse: Option<Program>)
      returns (ok: bool)
      requires Valid() && RegularStatement(s) && s == Statement.Block(m, program, inverse)
      modifies this
      ensures Valid() && (ok <==> AcceptsStatement(s, options))
      ensures ok ==> var c := CompileStatement(s, options, old(guid));
                     opcodes == old(opcodes) + c.opcodes && children == old(children) + c.children &&
                       added == old(added) + c.depths
      decreases s, 0
    {
      hide Lists, CompileProgram, AcceptsMustache, AcceptsProgram, RegularProgram, VisitBlock, ShiftedAll,
           CompileOptional;
      var g, h;
      ok, g := CompileNested(program);
      if !ok {
        return;
      }
      ok, h := CompileNested(inverse);
      if !ok {
        return;
      }
      ShiftedAllConcat(CompileOptional(program, options), CompileOptional(inverse, options));
      ok := Block(m, g, h);
    }

    method Block(m: Mustache, g: Option<nat>, h: Option<nat>) returns (ok: bool)
      requires Valid() && Regular(m)
      modifies `opcodes, `depths, `added
      ensures Valid() && (ok <==> AcceptsMustache(m, options))
      ensures ok ==>
              opcodes == old(opcodes) + VisitBlock(m, g, h, options).opcodes &&
              added == old(added) + VisitBlock(m, g, h, options).depths
    {
      hide Lists, AcceptsMustache, VisitSimple, VisitHelper, VisitAmbiguous;
      ok := Call(m, g, h);
      if !ok {
        return;
      }
      var kind := Classify(m, options);
      if !kind.Helper? {
        ghost var was := opcodes;
        var last := if kind.Simple? then BlockValue else AmbiguousBlockValue;
        Add(PushProgram(g));
        Add(PushProgram(h));
        Add(EmptyHash);
        Add(last);
        assert opcodes == was + [PushProgram(g), PushProgram(h), EmptyHash, last];
      }
      Add(Append);
    }

    method PartialNode(name: string, context: Option<Id>)
      requires Valid()
      modifies `opcodes, `depths, `added
      ensures Valid() && opcodes == old(opcodes) + VisitPartial(name, context).opcodes &&
              added == old(added) + VisitPartial(name, context).depths
    {
      hide Lists, VisitId;
      if context.Some? {
        ID(context.value);
      } else {
        Add(PushDepth0);
      }
      Add(InvokePartial(name));
      Add(Append);
    }

    /** Visits the statements, then sorts the depth list. */
    method CompileRoot(p: Program) returns (ok: bool, env: Environment)
      requires Valid() && RegularProgram(p) && opcodes == [] && children == [] && added == []
      modifies this
      ensures ok <==> AcceptsProgram(p, options)
      ensures ok ==> env == CompileProgram(p, options)
      decreases p
    {
      hide CompileBody, AcceptsBody, RegularBody, Ascending, Lists;
      env := Environment([], [], []);
      ok := VisitBody(p.statements);
      if ok {
        ListsSorted(depths, added);
        depths := Ascending(depths);
        env := Environment(opcodes, children, depths);
      }
    }

    method VisitBody(body: seq<Statement>) returns (ok: bool)
      requires Valid() && RegularBody(body) && opcodes == [] && children == [] && added == []
      modifies this
      ensures Valid() && (ok <==> AcceptsBody(body, options))
      ensures ok ==> Compiled(opcodes, children, added) == CompileBody(body, options, 0)
      decreases body
    {
      hide CompileStatement, AcceptsStatement, RegularStatement, CompileBody, AcceptsBody, RegularBody, After, Lists;
      BodyStart(body, options);
      for i := 0 to |body|
        invariant Valid() && RegularBody(body[i..])
        invariant AcceptsBody(body, options) == AcceptsBody(body[i..], options)
        invariant CompileBody(body, options, 0) == After(opcodes, children, added,
                                                         CompileBody(body[i..], options, guid))
      {
        BodyStep(opcodes, children, added, body, i, options, guid);
        ok := Visit(body[i]);
        if !ok {
          return;
        }
      }
      assert body[|body|..] == [];
      BodyEnd(opcodes, children, added, options, guid);
      ok := true;
    }
  }

  /** The generator: `lastContext` follows the getContext opcodes, and every name goes into the source. */
  class JavaScriptCompiler {
    var lastContext: nat
    var names: seq<nat>

    constructor ()
      ensures lastContext == 0 && names == []
    {
      lastContext, names := 0, [];
    }

    method Apply(op: Opcode, children: seq<Environment>)
      modifies this
      ensures names == old(names) + Mentions([op], old(lastContext), children)
      ensures lastContext == LastContext([op], old(lastContext))
    {
      match op
      case GetContext(depth) =>
        OneGet(depth, lastContext, children);
        if lastContext != depth {
          lastContext := depth;
        }
      case _ =>
        OneMention(op, lastContext, children);
        names := names + Names(op, lastContext, children);
    }

    /** Runs the opcodes; the parameters of the function are depth0 and the depth list, and nothing else is
        mentioned. */
    method Compile(env: Environment) returns (params: seq<nat>)
      requires Determined(env) && lastContext == 0 && names == []
      modifies this
      ensures names == Mentions(env.opcodes, 0, env.children) && params == [0] + env.depths
      ensures forall n :: n in names ==> n in params
    {
      hide Mentions, LastContext, Names, Gets, ShiftedAll, Increasing;
      NothingMentioned(env.children);
      for i := 0 to |env.opcodes|
        invariant names == Mentions(env.opcodes[..i], 0, env.children) &&
                  lastContext == LastContext(env.opcodes[..i], 0)
      {
        assert env.opcodes[..i + 1] == env.opcodes[..i] + [env.opcodes[i]];
        MentionsConcat(env.opcodes[..i], [env.opcodes[i]], 0, env.children);
        Apply(env.opcodes[i], env.children);
      }
      assert env.opcodes[..|env.opcodes|] == env.opcodes;
      params := [0];
      for i := 0 to |env.depths|
        invariant params == [0] + env.depths[..i]
      {
        params := params + [env.depths[i]];
      }
      assert env.depths[..|env.depths|] == env.depths;
      GeneratedClosed(env);
    }
  }

  lemma NothingMentioned(children: seq<Environment>)
    ensures Mentions([], 0, children) == [] && LastContext([], 0) == 0
  {
  }

  ghost function After(ops: seq<Opcode>, cs: seq<Environment>, ds: seq<nat>, c: Compiled): Compiled {
    Compiled(ops + c.opcodes, cs + c.children, ds + c.depths)
  }

  lemma BodyStart(body: seq<Statement>, o: Options)
    requires RegularBody(body)
    ensures body[0..] == body && CompileBody(body, o, 0) == After([], [], [], CompileBody(body, o, 0))
  {
    var c := CompileBody(body, o, 0);
    assert [] + c.opcodes == c.opcodes && [] + c.children == c.children && [] + c.depths == c.depths;
  }

  lemma BodyStep(ops: seq<Opcode>, cs: seq<Environment>, ds: seq<nat>, body: seq<Statement>, i: nat, o: Options,
                 guid: nat)
    requires i < |body| && RegularBody(body[i..])
    ensures RegularStatement(body[i]) && RegularBody(body[i + 1..])
    ensures AcceptsBody(body[i..], o) <==> AcceptsStatement(body[i], o) && AcceptsBody(body[i + 1..], o)
    ensures var first := CompileStatement(body[i], o, guid);
            After(ops, cs, ds, CompileBody(body[i..], o, guid)) ==
            After(ops + first.opcodes, cs + first.children, ds + first.depths,
                  CompileBody(body[i + 1..], o, guid + |first.children|))
  {
    hide CompileStatement, AcceptsStatement, RegularStatement;
    assert body[i..][1..] == body[i + 1..];
    var first := CompileStatement(body[i], o, guid);
    var rest := CompileBody(body[i + 1..], o, guid + |first.children|);
    assert ops + (first.opcodes + rest.opcodes) == ops + first.opcodes + rest.opcodes;
    assert cs + (first.children + rest.children) == cs + first.children + rest.children;
    assert ds + (first.depths + rest.depths) == ds + first.depths + rest.depths;
  }

  lemma BodyEnd(ops: seq<Opcode>, cs: seq<Environment>, ds: seq<nat>, o: Options, guid: nat)
    ensures RegularBody([]) && AcceptsBody([], o) && After(ops, cs, ds, CompileBody([], o, guid)) ==
            Compiled(ops, cs, ds)
  {
    assert ops + [] == ops && cs + [] == cs && ds + [] == ds;
  }

  lemma {:induction false} ShiftedConcat(a: seq<nat>, b: seq<nat>)
    ensures Shifted(a + b) == Shifted(a) + Shifted(b)
    decreases |a|
  {
    hide ShiftOne;
    if a == [] {
      assert a + b == b;
    } else {
      assert (a + b)[1..] == a[1..] + b;
      ShiftedConcat(a[1..], b);
    }
  }

  lemma ShiftedSnoc(depths: seq<nat>, i: nat)
    requires i < |depths|
    ensures Shifted(depths[..i + 1]) == Shifted(depths[..i]) + ShiftOne(depths[i])
  {
    assert depths[..i + 1] == depths[..i] + [depths[i]];
    ShiftedConcat(depths[..i], [depths[i]]);
    SingleShifted(depths[i]);
  }

  lemma SingleShifted(d: nat)
    ensures Shifted([d]) == ShiftOne(d)
  {
    hide ShiftOne;
    var ds := [d];
    assert ds[1..] == [] && Shifted(ds[1..]) == [];
  }

  lemma OneShifted(env: Environment)
    ensures ShiftedAll([env]) == Shifted(env.depths)
  {
    assert [env][1..] == [];
    assert ShiftedAll([env][1..]) == [];
  }
}
