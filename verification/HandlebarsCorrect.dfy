/** Compiling is correct: the opcodes of every syntax tree run without underflow,
    leave the stacks as they found them, and leave code that computes what the
    tree denotes, under every run-time. */
module HandlebarsCorrect {
  import opened Wrappers
  import opened HandlebarsCompiler
  import opened HandlebarsCodegen
  import opened HandlebarsSemantics

  /** The code computes v whatever the stack variables hold. */
  ghost predicate Means<V(!new)>(c: Code, v: V, rt: Runtime<V>) {
    forall st: Store<V> :: Eval(c, rt, st).0 == v
  }

  ghost predicate MeansAll<V(!new)>(cs: seq<Code>, vs: seq<V>, rt: Runtime<V>) {
    |cs| == |vs| && forall i :: 0 <= i < |cs| ==> Means(cs[i], vs[i], rt)
  }

  lemma {:induction false} EvalAllMeans<V(!new)>(cs: seq<Code>, vs: seq<V>, rt: Runtime<V>, st: Store<V>)
    requires MeansAll(cs, vs, rt)
    ensures EvalAll(cs, rt, st).0 == vs
    decreases cs
  {
    hide Eval;
    if cs != [] {
      EvalAllMeans(cs[1..], vs[1..], rt, Eval(cs[0], rt, st).1);
    }
  }

  ghost predicate OptionsMean<V(!new)>(c: CallOptions, a: CallArguments<V>, rt: Runtime<V>) {
    && c.name == a.name && Means(c.hash, a.hash, rt) && Means(c.hashIds, a.hashIds, rt)
    && Means(c.hashTypes, a.hashTypes, rt) && Means(c.hashContexts, a.hashContexts, rt)
    && Means(c.program, a.program, rt) && Means(c.inverse, a.inverse, rt)
    && MeansAll(c.ids, a.ids, rt) && MeansAll(c.types, a.types, rt) && MeansAll(c.contexts, a.contexts, rt)
  }

  lemma EvalOptionsMeans<V(!new)>(c: CallOptions, a: CallArguments<V>, rt: Runtime<V>, st: Store<V>)
    requires OptionsMean(c, a, rt)
    ensures EvalOptions(c, rt, st).0 == a
  {
    hide Eval, EvalAll, MeansAll;
    var s6 := Eval(c.inverse, rt, Eval(c.program, rt, Eval(c.hashContexts, rt,
      Eval(c.hashTypes, rt, Eval(c.hashIds, rt, Eval(c.hash, rt, st).1).1).1).1).1).1;
    EvalAllMeans(c.ids, a.ids, rt, s6);
    var s7 := EvalAll(c.ids, rt, s6).1;
    EvalAllMeans(c.types, a.types, rt, s7);
    EvalAllMeans(c.contexts, a.contexts, rt, EvalAll(c.types, rt, s7).1);
  }

  // ---------- Pushing onto the inline stack ----------

  /** s' is s with the entries xs on top; nothing else a later opcode depends on has changed. */
  predicate Pushes(s: State, s': State, xs: seq<Slot>) {
    s' == s.(inlineStack := s.inlineStack + xs, stackVars := s'.stackVars, lastContext := s'.lastContext)
  }

  lemma PushesTrans(s: State, s1: State, s2: State, xs: seq<Slot>, ys: seq<Slot>)
    requires Pushes(s, s1, xs) && Pushes(s1, s2, ys)
    ensures Pushes(s, s2, xs + ys)
  {
    assert s.inlineStack + (xs + ys) == s.inlineStack + xs + ys;
  }

  lemma AtomMeans<V(!new)>(a: Atom, rt: Runtime<V>)
    ensures Means(Atomic(a), rt.atom(a), rt)
  {
  }

  function Wrapped<V>(w: Wrapper, v: V, rt: Runtime<V>): V {
    match w
    case NotNullMember(name) => if rt.isNull(v) then v else rt.member(v, name)
    case AndMember(name) => if rt.truthy(v) then rt.member(v, name) else v
    case OrEmpty => OrEmptyText(rt, v)
  }

  lemma WrapLiteral<V(!new)>(w: Wrapper, c: Code, v: V, rt: Runtime<V>)
    requires Means(c, v, rt)
    ensures Means(Wrap(w, c, c), Wrapped(w, v, rt), rt)
  {
    forall st: Store<V>
      ensures Eval(Wrap(w, c, c), rt, st).0 == Wrapped(w, v, rt)
    {
      var (x, st1) := Eval(c, rt, st);
      assert x == v;
      var (y, st2) := Eval(c, rt, st1);
      assert y == v;
    }
  }

  lemma WrapAssigned<V(!new)>(w: Wrapper, n: nat, c: Code, v: V, rt: Runtime<V>)
    requires Means(c, v, rt)
    ensures Means(Wrap(w, Assign(n, c), Tmp(n)), Wrapped(w, v, rt), rt)
  {
    forall st: Store<V>
      ensures Eval(Wrap(w, Assign(n, c), Tmp(n)), rt, st).0 == Wrapped(w, v, rt)
    {
      var (x, st1) := Eval(c, rt, st);
      assert x == v;
      var st2 := st1.(tmps := st1.tmps[n := v]);
      assert Eval(Assign(n, c), rt, st) == (v, st2);
      assert Eval(Tmp(n), rt, st2) == (v, st2);
    }
  }

  /** replaceStack rewrites the top entry and leaves everything below it alone. */
  lemma ReplaceMeans<V(!new)>(s: State, base: seq<Slot>, x: Slot, v: V, w: Wrapper, rt: Runtime<V>)
    returns (t: State, y: Slot)
    requires s.inlineStack == base + [x] && Means(x.code, v, rt)
    ensures ReplaceStack(s, w) == Some(t) && t == s.(inlineStack := base + [y], stackVars := t.stackVars)
    ensures y.Inline? && Means(y.code, Wrapped(w, v, rt), rt) && !y.code.Atomic?
  {
    t := ReplaceStack(s, w).value;
    y := t.inlineStack[|t.inlineStack| - 1];
    assert (base + [x])[..|base|] == base;
    if x.Lit? {
      WrapLiteral(w, x.code, v, rt);
    } else {
      WrapAssigned(w, s.stackSlot + 1, x.code, v, rt);
    }
  }

  lemma {:induction false} ResolveMeans<V(!new)>(s: State, base: seq<Slot>, x: Slot, v: V, parts: seq<string>,
                                                 falsy: bool,
                                                 rt: Runtime<V>) returns (t: State, y: Slot)
    requires s.inlineStack == base + [x] && Means(x.code, v, rt)
    ensures ResolvePath(s, parts, falsy) == Some(t) && t == s.(inlineStack := base + [y], stackVars := t.stackVars)
    ensures Means(y.code, Descend(rt, v, parts, falsy), rt)
    ensures (parts == [] && y == x) || !y.code.Atomic?
    decreases |parts|
  {
    hide Means, ReplaceStack;
    if parts == [] {
      t, y := s, x;
    } else {
      var w := if falsy then AndMember(parts[0]) else NotNullMember(parts[0]);
      var t1, y1 := ReplaceMeans(s, base, x, v, w, rt);
      t, y := ResolveMeans(t1, base, y1, Wrapped(w, v, rt), parts[1..], falsy, rt);
    }
  }

  lemma RunOne(s: State, op: Opcode, o: Options)
    ensures Run(s, [op], o) == Step(s, op, o)
  {
    hide Step;
    assert [op][1..] == [];
    var t := Step(s, op, o);
    assert t.Some? ==> Run(t.value, [], o) == t;
  }

  lemma RunThen(s: State, a: seq<Opcode>, s1: State, b: seq<Opcode>, o: Options)
    requires Run(s, a, o) == Some(s1)
    ensures Run(s, a + b, o) == Run(s1, b, o)
  {
    hide Run;
    RunAppend(s, a, b, o);
  }

  lemma RunPath<V(!new)>(s: State, p: Path, falsy: bool, strict: bool, o: Options, bp: Scope, rt: Runtime<V>)
    returns (t: State, y: Slot)
    ensures Run(s, EmitPath(p, falsy, strict, bp), o) == Some(t) && Pushes(s, t, [y])
    ensures Means(y.code, DenotePath(p, falsy, bp, rt), rt) && y.code != Atomic(Text(Undefined))
  {
    hide Means, Run, ResolvePath, Descend, BlockParamIndex, ScopedId;
    var ops := EmitPath(p, falsy, strict, bp);
    var s1 := s.(lastContext := p.depth);
    RunOne(s, GetContext(p.depth), o);
    RunOne(s1, ops[1], o);
    RunThen(s, [GetContext(p.depth)], s1, [ops[1]], o);
    var name := HeadName(p);
    var blockParam := if p.depth == 0 && !ScopedId(p.original) && p.parts != [] then BlockParamIndex(bp, name)
      else None;
    if blockParam.Some? {
      var a := BlockParam(blockParam.value.0, blockParam.value.1);
      AtomMeans(a, rt);
      t, y := ResolveMeans(Push(s1, Inline(Atomic(a))), s.inlineStack, Inline(Atomic(a)), rt.atom(a), p.parts[1..],
                           false, rt);
    } else if p.parts == [] || p.parts[0] == "" {
      AtomMeans(Context(p.depth), rt);
      t, y := Push(s1, Lit(Atomic(Context(p.depth)))), Lit(Atomic(Context(p.depth)));
    } else {
      var a := if p.data then Data(p.depth) else Context(p.depth);
      AtomMeans(a, rt);
      t, y := ResolveMeans(Push(s1, Lit(Atomic(a))), s.inlineStack, Lit(Atomic(a)), rt.atom(a), p.parts, p.data ||
                           falsy, rt);
    }
  }

  // ---------- Arguments on the stack ----------

  ghost predicate ArgMeans<V(!new)>(a: Arg, d: Denoted<V>, rt: Runtime<V>) {
    Means(a.param, d.value, rt) && Means(a.id, d.id, rt) && Means(a.typ, d.typ, rt) && Means(a.context, d.context, rt)
  }

  predicate OneMode(o: Options) { !(o.stringParams && o.trackIds) }

  function Width(o: Options): nat { if o.stringParams then 3 else if o.trackIds then 2 else 1 }

  /** The entries of one argument: context, type and value; or id and value; or the value. */
  predicate PushedArg(xs: seq<Slot>, a: Arg, o: Options) {
    && |xs| == Width(o)
    && xs[|xs| - 1].code == a.param
    && (if o.stringParams then xs[0].code == a.context && xs[1].code == a.typ
        else a.context == Atomic(Absent) && a.typ == Atomic(Absent))
    && (if o.trackIds && !o.stringParams then xs[0].code == a.id else a.id == Atomic(Absent))
  }

  ghost predicate PushedArgs(xs: seq<Slot>, args: seq<Arg>, o: Options)
    decreases |args|
  {
    if args == [] then xs == []
    else
      && |xs| >= Width(o)
      && PushedArg(xs[|xs| - Width(o)..], args[|args| - 1], o)
      && PushedArgs(xs[..|xs| - Width(o)], args[..|args| - 1], o)
  }

  lemma {:induction false} PushedConcat(xs: seq<Slot>, as': seq<Arg>, ys: seq<Slot>, bs: seq<Arg>, o: Options)
    requires PushedArgs(xs, as', o) && PushedArgs(ys, bs, o)
    ensures PushedArgs(xs + ys, as' + bs, o)
    decreases |bs|
  {
    hide PushedArg;
    if bs == [] {
      assert xs + ys == xs && as' + bs == as';
    } else {
      var w := Width(o);
      PushedConcat(xs, as', ys[..|ys| - w], bs[..|bs| - 1], o);
      assert (xs + ys)[..|xs + ys| - w] == xs + ys[..|ys| - w];
      assert (xs + ys)[|xs + ys| - w..] == ys[|ys| - w..];
      assert (as' + bs)[..|as' + bs| - 1] == as' + bs[..|bs| - 1];
    }
  }

  lemma PushedSingle(xs: seq<Slot>, a: Arg, o: Options)
    requires PushedArg(xs, a, o)
    ensures PushedArgs(xs, [a], o)
  {
    assert xs[|xs| - Width(o)..] == xs && xs[..|xs| - Width(o)] == [] && [a][..0] == [];
  }

  lemma PopTop(s: State, base: seq<Slot>, x: Slot)
    requires s.inlineStack == base + [x]
    ensures PopOptional(s, true) == Some((x.code, s.(inlineStack := base)))
    ensures PopStack(s) == Some((x, s.(inlineStack := base)))
  {
    assert (base + [x])[..|base|] == base;
  }

  lemma PopPushedArg(s: State, base: seq<Slot>, xs: seq<Slot>, a: Arg, o: Options)
    requires OneMode(o) && s.inlineStack == base + xs && PushedArg(xs, a, o)
    ensures PopArg(s, o) == Some((a, s.(inlineStack := base)))
  {
    hide PopOptional;
    if o.stringParams {
      assert base + xs == base + [xs[0]] + [xs[1]] + [xs[2]];
      PopTop(s, base + [xs[0]] + [xs[1]], xs[2]);
      PopTop(s.(inlineStack := base + [xs[0]] + [xs[1]]), base + [xs[0]], xs[1]);
      PopTop(s.(inlineStack := base + [xs[0]]), base, xs[0]);
      PopUnused(s.(inlineStack := base + [xs[0]] + [xs[1]]));
    } else if o.trackIds {
      assert base + xs == base + [xs[0]] + [xs[1]];
      PopTop(s, base + [xs[0]], xs[1]);
      PopTop(s.(inlineStack := base + [xs[0]]), base, xs[0]);
      PopUnused(s.(inlineStack := base));
    } else {
      assert xs == [xs[0]];
      PopTop(s, base, xs[0]);
      PopUnused(s.(inlineStack := base));
    }
  }

  lemma PopUnused(s: State)
    ensures PopOptional(s, false) == Some((Atomic(Absent), s))
  {
  }

  lemma {:induction false} PopPushedArgs(s: State, base: seq<Slot>, xs: seq<Slot>, args: seq<Arg>, o: Options)
    requires OneMode(o) && s.inlineStack == base + xs && PushedArgs(xs, args, o)
    ensures PopArgs(s, |args|, o) == Some((args, s.(inlineStack := base)))
    decreases |args|
  {
    hide PopArg, PushedArg;
    if args == [] {
      assert base + xs == base;
    } else {
      var k, n := |xs| - Width(o), |args| - 1;
      assert base + xs == (base + xs[..k]) + xs[k..];
      PopPushedArg(s, base + xs[..k], xs[k..], args[n], o);
      PopPushedArgs(s.(inlineStack := base + xs[..k]), base, xs[..k], args[..n], o);
      assert args[..n] + [args[n]] == args;
    }
  }

  // ---------- Hash objects ----------

  datatype Keyed<V> = Keyed(key: string, value: V, dropped: bool)

  ghost predicate EntriesMean<V(!new)>(es: seq<Entry>, ks: seq<Keyed<V>>, rt: Runtime<V>) {
    |es| == |ks| && forall i :: 0 <= i < |es| ==>
      es[i].key == ks[i].key && (Dropped(es[i]) <==> ks[i].dropped) && Means(es[i].code, ks[i].value, rt)
  }

  function KeyedMap<V>(ks: seq<Keyed<V>>): map<string, V> {
    if ks == [] then map[]
    else if ks[0].dropped then KeyedMap(ks[1..])
    else map[ks[0].key := ks[0].value] + KeyedMap(ks[1..])
  }

  function PutKeyed<V>(ks: seq<Keyed<V>>, k: Keyed<V>): seq<Keyed<V>> {
    if ks == [] then [k] else if ks[0].key == k.key then [k] + ks[1..] else [ks[0]] + PutKeyed(ks[1..], k)
  }

  lemma {:induction false} EvalEntriesMeans<V(!new)>(es: seq<Entry>, ks: seq<Keyed<V>>, rt: Runtime<V>, st: Store<V>)
    requires EntriesMean(es, ks, rt)
    ensures EvalEntries(es, rt, st).0 == KeyedMap(ks)
    decreases es
  {
    hide Eval;
    if es != [] {
      assert EntriesMean(es[1..], ks[1..], rt);
      if Dropped(es[0]) {
        EvalEntriesMeans(es[1..], ks[1..], rt, st);
      } else {
        EvalEntriesMeans(es[1..], ks[1..], rt, Eval(es[0].code, rt, st).1);
      }
    }
  }

  lemma {:induction false} PutMeans<V(!new)>(es: seq<Entry>, ks: seq<Keyed<V>>, e: Entry, k: Keyed<V>, rt: Runtime<V>)
    requires EntriesMean(es, ks, rt) && e.key == k.key && (Dropped(e) <==> k.dropped) && Means(e.code, k.value, rt)
    ensures EntriesMean(PutEntry(es, e.key, e.code), PutKeyed(ks, k), rt)
    decreases |es|
  {
    hide Means;
    assert e == Entry(e.key, e.code);
    if es != [] && es[0].key != e.key {
      PutMeans(es[1..], ks[1..], e, k, rt);
    }
  }

  predicate HasKey<V>(ks: seq<Keyed<V>>, key: string) {
    exists i :: 0 <= i < |ks| && ks[i].key == key
  }

  predicate Distinct<V>(ks: seq<Keyed<V>>) {
    forall i, j :: 0 <= i < j < |ks| ==> ks[i].key != ks[j].key
  }

  lemma {:induction false} KeyedMapKeys<V>(ks: seq<Keyed<V>>, key: string)
    requires !HasKey(ks, key)
    ensures key !in KeyedMap(ks)
  {
    if ks != [] {
      assert !HasKey(ks[1..], key);
      KeyedMapKeys(ks[1..], key);
    }
  }

  lemma HasCons<V>(k: Keyed<V>, ks: seq<Keyed<V>>, key: string)
    ensures HasKey([k] + ks, key) <==> k.key == key || HasKey(ks, key)
  {
    var r := [k] + ks;
    assert r[0].key == k.key;
    assert forall i :: 0 <= i < |ks| ==> ks[i] == r[i + 1];
  }

  lemma {:induction false} PutKeys<V>(ks: seq<Keyed<V>>, k: Keyed<V>, key: string)
    requires key != k.key && !HasKey(ks, key)
    ensures !HasKey(PutKeyed(ks, k), key)
  {
    hide HasKey;
    if ks == [] {
      HasCons(k, ks, key);
      assert [k] + ks == [k];
    } else {
      assert ks == [ks[0]] + ks[1..];
      HasCons(ks[0], ks[1..], key);
      if ks[0].key == k.key {
        HasCons(k, ks[1..], key);
      } else {
        PutKeys(ks[1..], k, key);
        HasCons(ks[0], PutKeyed(ks[1..], k), key);
      }
    }
  }

  lemma DistinctCons<V>(k: Keyed<V>, ks: seq<Keyed<V>>)
    ensures Distinct([k] + ks) <==> Distinct(ks) && !HasKey(ks, k.key)
  {
    var r := [k] + ks;
    if HasKey(ks, k.key) {
      var i :| 0 <= i < |ks| && ks[i].key == k.key;
      assert r[0].key == r[i + 1].key;
    }
    if Distinct(r) {
      forall i, j | 0 <= i < j < |ks|
        ensures ks[i].key != ks[j].key
      {
        assert r[i + 1].key != r[j + 1].key;
      }
    }
  }

  lemma {:induction false} PutDistinct<V>(ks: seq<Keyed<V>>, k: Keyed<V>)
    requires Distinct(ks)
    ensures Distinct(PutKeyed(ks, k))
    decreases |ks|
  {
    hide Distinct, HasKey;
    if ks == [] {
      DistinctSingle(k);
    } else {
      assert ks == [ks[0]] + ks[1..];
      DistinctCons(ks[0], ks[1..]);
      if ks[0].key == k.key {
        DistinctCons(k, ks[1..]);
      } else {
        PutDistinct(ks[1..], k);
        PutKeys(ks[1..], k, ks[0].key);
        DistinctCons(ks[0], PutKeyed(ks[1..], k));
      }
    }
  }

  lemma DistinctSingle<V>(k: Keyed<V>)
    ensures Distinct([k])
  {
  }

  /** Replacing in place or appending is a map update. */
  lemma {:induction false} PutKeyedMap<V>(ks: seq<Keyed<V>>, k: Keyed<V>)
    requires Distinct(ks)
    ensures KeyedMap(PutKeyed(ks, k)) == if k.dropped then KeyedMap(ks) - {k.key} else KeyedMap(ks)[k.key := k.value]
    decreases |ks|
  {
    hide Distinct, HasKey;
    if ks != [] {
      assert ks == [ks[0]] + ks[1..];
      DistinctCons(ks[0], ks[1..]);
      KeyedMapKeys(ks[1..], ks[0].key);
      if ks[0].key != k.key {
        PutKeyedMap(ks[1..], k);
        assert PutKeyed(ks, k)[1..] == PutKeyed(ks[1..], k);
      } else {
        assert PutKeyed(ks, k)[1..] == ks[1..];
      }
    }
  }

  /** The keys assigned last to first, as assignToHash does. */
  function Assigned<V>(items: seq<Keyed<V>>): seq<Keyed<V>> {
    if items == [] then [] else PutKeyed(Assigned(items[1..]), items[0])
  }

  function DirectMap<V>(items: seq<Keyed<V>>): map<string, V> {
    if items == [] then map[]
    else if items[0].dropped then DirectMap(items[1..]) - {items[0].key}
    else DirectMap(items[1..])[items[0].key := items[0].value]
  }

  lemma {:induction false} AssignedMap<V>(items: seq<Keyed<V>>)
    ensures Distinct(Assigned(items)) && KeyedMap(Assigned(items)) == DirectMap(items)
  {
    if items != [] {
      AssignedMap(items[1..]);
      PutDistinct(Assigned(items[1..]), items[0]);
      PutKeyedMap(Assigned(items[1..]), items[0]);
    }
  }

  function Items<V>(pairs: seq<Pair>, vs: seq<V>, drops: bool): (r: seq<Keyed<V>>)
    requires |pairs| == |vs|
    ensures |r| == |pairs|
  {
    if pairs == [] then []
    else [Keyed(pairs[0].key, vs[0], drops && pairs[0].value.UndefinedLiteral?)] + Items(pairs[1..], vs[1..], drops)
  }

  lemma PartMapPut<V>(m: map<string, Denoted<V>>, k: string, d: Denoted<V>, part: Part, dropped: set<string>)
    ensures PartMap(m[k := d], part, dropped - {k}) == PartMap(m, part, dropped)[k := PickDenoted(d, part)]
    ensures PartMap(m[k := d], part, dropped + {k}) == PartMap(m, part, dropped) - {k}
  {
  }

  lemma ItemsUnfold<V>(pairs: seq<Pair>, ds: seq<Denoted<V>>, part: Part, drops: bool)
    requires pairs != [] && |ds| == |pairs|
    ensures var first := Keyed(pairs[0].key, PickDenoted(ds[0], part), drops && pairs[0].value.UndefinedLiteral?);
            var rest := Items(pairs[1..], Each(ds[1..], part), drops);
            DirectMap(Items(pairs, Each(ds, part), drops)) ==
            if first.dropped then DirectMap(rest) - {first.key} else DirectMap(rest)[first.key := first.value]
  {
    assert Items(pairs, Each(ds, part), drops)[1..] == Items(pairs[1..], Each(ds, part)[1..], drops);
  }

  lemma {:induction false} ItemsMap<V>(pairs: seq<Pair>, ds: seq<Denoted<V>>, part: Part, drops: bool,
                                       o: Options, bp: Scope, rt: Runtime<V>)
    requires |ds| == |pairs| && ds == DenoteParams(PairValues(pairs), o, bp, rt) && (drops ==> !o.stringParams)
    ensures DirectMap(Items(pairs, Each(ds, part), drops)) ==
            PartMap(DenotePairs(pairs, o, bp, rt), part, if drops then UndefinedKeys(pairs, o) else {})
    decreases |pairs|
  {
    hide DenoteParam, PickDenoted, PartMap, DirectMap, Items, Each;
    if pairs == [] {
      NoItems(ds, part, drops);
    } else {
      assert PairValues(pairs)[1..] == PairValues(pairs[1..]);
      ItemsMap(pairs[1..], ds[1..], part, drops, o, bp, rt);
      ItemsUnfold(pairs, ds, part, drops);
      var dropped := if drops then UndefinedKeys(pairs[1..], o) else {};
      PartMapPut(DenotePairs(pairs[1..], o, bp, rt), pairs[0].key, ds[0], part, dropped);
      assert !drops ==> dropped - {pairs[0].key} == {};
    }
  }

  lemma NoItems<V>(ds: seq<Denoted<V>>, part: Part, drops: bool)
    requires ds == []
    ensures DirectMap(Items([], Each(ds, part), drops)) == map[] == PartMap<V>(map[], part, {})
  {
  }

  function PairValues(pairs: seq<Pair>): (r: seq<Expr>)
    ensures |r| == |pairs|
  {
    if pairs == [] then [] else [pairs[0].value] + PairValues(pairs[1..])
  }

  // ---------- Syntax trees the theorem is about ----------

  /** Every hash key is one the array behind a hash holds. */
  predicate PlainExpr(e: Expr)
    decreases e
  {
    e.SubExpression? ==> PlainExprs(e.params) && PlainHash(e.hash)
  }

  predicate PlainExprs(es: seq<Expr>)
    decreases es
  {
    es == [] || (PlainExpr(es[0]) && PlainExprs(es[1..]))
  }

  predicate PlainHash(h: Hash)
    decreases h
  {
    h.Pairs? ==> PlainPairs(h.pairs)
  }

  predicate PlainPairs(pairs: seq<Pair>)
    decreases pairs
  {
    pairs == [] || (PlainKey(pairs[0].key) && PlainExpr(pairs[0].value) && PlainPairs(pairs[1..]))
  }

  /** The argument a parameter leaves on the stack. */
  ghost predicate ArgOf<V(!new)>(a: Arg, e: Expr, o: Options, bp: Scope, rt: Runtime<V>) {
    && ArgMeans(a, DenoteParam(e, o, bp, rt), rt)
    && (a.param == Atomic(Text(Undefined)) <==> e.UndefinedLiteral? && !o.stringParams)
    && a.id != Atomic(Text(Undefined)) && a.typ != Atomic(Text(Undefined)) && a.context != Atomic(Text(Undefined))
  }

  ghost predicate ArgsOf<V(!new)>(args: seq<Arg>, es: seq<Expr>, o: Options, bp: Scope, rt: Runtime<V>) {
    |args| == |es| && forall i :: 0 <= i < |args| ==> ArgOf(args[i], es[i], o, bp, rt)
  }

  /** Outside a hash no outer hash is waiting. */
  predicate Ready(s: State) { s.hash.None? ==> s.hashes == [] }

  ghost predicate HashHolds<V(!new)>(h: HashState, pairs: seq<Pair>, ds: seq<Denoted<V>>, o: Options, rt: Runtime<V>) {
    && |ds| == |pairs|
    && EntriesMean(h.values, Assigned(Items(pairs, Each(ds, ValuePart), !o.stringParams)), rt)
    && (o.trackIds ==> EntriesMean(h.ids, Assigned(Items(pairs, Each(ds, IdPart), false)), rt))
    && (o.stringParams ==> EntriesMean(h.types, Assigned(Items(pairs, Each(ds, TypePart), false)), rt))
    && (o.stringParams ==> EntriesMean(h.contexts, Assigned(Items(pairs, Each(ds, ContextPart), false)), rt))
  }

  lemma InnerSlice<T>(s: seq<T>, n: nat)
    requires 0 < n < |s|
    ensures s[1..][..n - 1] == s[..n][1..]
  {
  }

  lemma {:induction false} PushedFront(xs: seq<Slot>, args: seq<Arg>, o: Options)
    requires PushedArgs(xs, args, o) && args != []
    ensures |xs| >= Width(o) && PushedArg(xs[..Width(o)], args[0], o) && PushedArgs(xs[Width(o)..], args[1..], o)
    decreases |args|
  {
    hide PushedArg;
    var w, k, n := Width(o), |xs| - Width(o), |args| - 1;
    if n == 0 {
      assert xs[..k] == [] && xs[k..] == xs == xs[..w] && args[..0] == [];
    } else {
      PushedFront(xs[..k], args[..n], o);
      MiddleSlices(xs, w, k);
      InnerSlice(args, n);
      assert args[1..][n - 1] == args[n];
    }
  }

  lemma MiddleSlices<T>(xs: seq<T>, w: nat, k: nat)
    requires w <= k <= |xs|
    ensures xs[..k][..w] == xs[..w] && xs[w..][k - w..] == xs[k..] && xs[w..][..k - w] == xs[..k][w..]
  {
  }

  lemma AssignStep<V(!new)>(s: State, base: seq<Slot>, xs: seq<Slot>, a: Arg, pairs: seq<Pair>, ds: seq<Denoted<V>>,
                            o: Options, bp: Scope, rt: Runtime<V>) returns (t: State)
    requires OneMode(o) && pairs != [] && PlainKey(pairs[0].key) && |ds| == |pairs|
    requires s.inlineStack == base + xs && PushedArg(xs, a, o) && ArgOf(a, pairs[0].value, o, bp, rt)
    requires ds[0] == DenoteParam(pairs[0].value, o, bp, rt)
    requires s.hash.Some? && HashHolds(s.hash.value, pairs[1..], ds[1..], o, rt)
    ensures Step(s, AssignToHash(pairs[0].key), o) == Some(t)
    ensures t == s.(inlineStack := base, hash := t.hash) && t.hash.Some? && HashHolds(t.hash.value, pairs, ds, o, rt)
  {
    hide PopArg, PushedArg, Means, DenoteParam, EntriesMean, PutEntry, PutKeyed;
    PopPushedArg(s, base, xs, a, o);
    var h, key, d := s.hash.value, pairs[0].key, ds[0];
    var values := Items(pairs, Each(ds, ValuePart), !o.stringParams);
    assert values[1..] == Items(pairs[1..], Each(ds[1..], ValuePart), !o.stringParams);
    PutMeans(h.values, Assigned(values[1..]), Entry(key, a.param), values[0], rt);
    if o.trackIds {
      PutPart(h.ids, pairs, ds, IdPart, Entry(key, a.id), rt);
    }
    if o.stringParams {
      PutPart(h.types, pairs, ds, TypePart, Entry(key, a.typ), rt);
      PutPart(h.contexts, pairs, ds, ContextPart, Entry(key, a.context), rt);
    }
    t := Step(s, AssignToHash(key), o).value;
  }

  lemma PutPart<V(!new)>(es: seq<Entry>, pairs: seq<Pair>, ds: seq<Denoted<V>>, part: Part, e: Entry, rt: Runtime<V>)
    requires pairs != [] && |ds| == |pairs| && e.key == pairs[0].key
    requires EntriesMean(es, Assigned(Items(pairs[1..], Each(ds[1..], part), false)), rt)
    requires Means(e.code, PickDenoted(ds[0], part), rt) && e.code != Atomic(Text(Undefined))
    ensures EntriesMean(PutEntry(es, e.key, e.code), Assigned(Items(pairs, Each(ds, part), false)), rt)
  {
    hide Means, EntriesMean, PutEntry, PutKeyed, PickDenoted;
    var items := Items(pairs, Each(ds, part), false);
    assert items[1..] == Items(pairs[1..], Each(ds[1..], part), false);
    PutMeans(es, Assigned(items[1..]), e, items[0], rt);
  }

  lemma {:induction false} RunKeys<V(!new)>(s: State, base: seq<Slot>, xs: seq<Slot>, args: seq<Arg>, pairs: seq<Pair>,
                                            o: Options, bp: Scope, rt: Runtime<V>) returns (t: State)
    requires OneMode(o) && PlainPairs(pairs)
    requires s.inlineStack == base + xs && PushedArgs(xs, args, o) && ArgsOf(args, PairValues(pairs), o, bp, rt)
    requires s.hash == Some(HashState([], [], [], []))
    ensures Run(s, EmitKeys(pairs), o) == Some(t)
    ensures t == s.(inlineStack := base, hash := t.hash) && t.hash.Some?
    ensures HashHolds(t.hash.value, pairs, DenoteParams(PairValues(pairs), o, bp, rt), o, rt)
    decreases |pairs|
  {
    hide Means, ArgOf, PushedArg, DenoteParam, PlainExpr, Step;
    var es := PairValues(pairs);
    var ds := DenoteParams(es, o, bp, rt);
    if pairs == [] {
      assert base + xs == base;
      t := s;
    } else {
      var w := Width(o);
      PushedFront(xs, args, o);
      assert es[1..] == PairValues(pairs[1..]) && base + xs == (base + xs[..w]) + xs[w..];
      var t1 := RunKeys(s, base + xs[..w], xs[w..], args[1..], pairs[1..], o, bp, rt);
      t := AssignStep(t1, base, xs[..w], args[0], pairs, ds, o, bp, rt);
      RunThen(s, EmitKeys(pairs[1..]), t1, [AssignToHash(pairs[0].key)], o);
      RunOne(t1, AssignToHash(pairs[0].key), o);
    }
  }

  lemma LiteralMeans<V(!new)>(es: seq<Entry>, pairs: seq<Pair>, ds: seq<Denoted<V>>, part: Part, drops: bool,
                              o: Options, bp: Scope, rt: Runtime<V>)
    requires |ds| == |pairs| && ds == DenoteParams(PairValues(pairs), o, bp, rt) && (drops ==> !o.stringParams)
    requires EntriesMean(es, Assigned(Items(pairs, Each(ds, part), drops)), rt)
    ensures Means(HashLiteral(es),
                  rt.literal(PartMap(DenotePairs(pairs, o, bp, rt), part, if drops then UndefinedKeys(pairs, o)
                                     else {})), rt)
  {
    var ks := Assigned(Items(pairs, Each(ds, part), drops));
    ItemsMap(pairs, ds, part, drops, o, bp, rt);
    AssignedMap(Items(pairs, Each(ds, part), drops));
    hide EvalEntries, KeyedMap, Assigned, Items, PartMap, EntriesMean;
    forall st: Store<V>
      ensures Eval(HashLiteral(es), rt, st).0 == rt.literal(KeyedMap(ks))
    {
      EvalEntriesMeans(es, ks, rt, st);
    }
  }

  // ---------- Expressions ----------

  lemma OrNoopMeans<V(!new)>(p: Option<nat>, q: Option<nat>, rt: Runtime<V>)
    ensures Means(OrNoop(ProgramCode(p), ProgramCode(q)), rt.atom(ProgramAtom(p, q)), rt)
  {
    AtomMeans(ProgramAtom(p, q), rt);
  }

  function ProgramCode(guid: Option<nat>): Code { Atomic(if guid.Some? then ProgramRef(guid.value) else NoProgram) }

  lemma {:induction false} PickedMeans<V(!new)>(args: seq<Arg>, ds: seq<Denoted<V>>, part: Part, rt: Runtime<V>)
    requires |args| == |ds| && forall i :: 0 <= i < |args| ==> ArgMeans(args[i], ds[i], rt)
    ensures MeansAll(Picked(args, part), Each(ds, part), rt)
    decreases |args|
  {
    hide Means;
    if args != [] {
      PickedMeans(args[1..], ds[1..], part, rt);
    }
  }

  lemma {:induction false} DenoteParamsAt<V>(es: seq<Expr>, o: Options, bp: Scope, rt: Runtime<V>, i: nat)
    requires i < |es|
    ensures DenoteParams(es, o, bp, rt)[i] == DenoteParam(es[i], o, bp, rt)
    decreases |es|
  {
    hide DenoteParam;
    if i > 0 {
      DenoteParamsAt(es[1..], o, bp, rt, i - 1);
    }
  }

  /** The arguments of a call as they lie on the stack. */
  datatype Pushed = Pushed(state: State, args: seq<Arg>, hash: Arg, xs: seq<Slot>, hs: seq<Slot>)

  /** setupParams takes exactly these arguments off again. */
  lemma SetupMeans<V(!new)>(s: State, base: seq<Slot>, p: Pushed, name: string, es: seq<Expr>, ds: seq<Denoted<V>>,
                            hash: Denoted<V>, program: Option<nat>, inverse: Option<nat>, o: Options, rt: Runtime<V>)
    returns (u: Setup)
    requires OneMode(o) && PushedArgs(p.xs, p.args, o) && PushedArg(p.hs, p.hash, o)
    requires |p.args| == |ds| && (forall i :: 0 <= i < |p.args| ==> ArgMeans(p.args[i], ds[i], rt)) &&
             ArgMeans(p.hash, hash, rt)
    requires s.inlineStack == base + p.xs + [Lit(ProgramCode(program)), Lit(ProgramCode(inverse))] + p.hs
    ensures SetupParams(s, name, |ds|, o) == Some(u) && u.rest == s.(inlineStack := base)
    ensures u.args == p.args
    ensures MeansAll(Picked(u.args, ValuePart), Each(ds, ValuePart), rt)
    ensures OptionsMean(u.options, DenoteOptions(name, ds, hash, program, inverse, o, rt), rt)
  {
    hide Means, PushedArg, PopArg, PopOptional, PopArgs, PushedArgs, OrNoop, MeansAll, Picked, Each;
    var b1 := base + p.xs;
    var g, h := Lit(ProgramCode(program)), Lit(ProgramCode(inverse));
    assert s.inlineStack == (b1 + [g] + [h]) + p.hs;
    PopPushedArg(s, b1 + [g] + [h], p.hs, p.hash, o);
    PopTop(s.(inlineStack := b1 + [g] + [h]), b1 + [g], h);
    PopTop(s.(inlineStack := b1 + [g]), b1, g);
    PopPushedArgs(s.(inlineStack := b1), base, p.xs, p.args, o);
    OrNoopMeans(program, inverse, rt);
    OrNoopMeans(inverse, program, rt);
    PickedMeans(p.args, ds, ValuePart, rt);
    PickedMeans(p.args, ds, IdPart, rt);
    PickedMeans(p.args, ds, TypePart, rt);
    PickedMeans(p.args, ds, ContextPart, rt);
    NothingMeans(rt);
    u := SetupParams(s, name, |ds|, o).value;
  }

  lemma NothingMeans<V(!new)>(rt: Runtime<V>)
    ensures MeansAll([], [], rt)
  {
  }

  lemma KnownCallMeans<V(!new)>(name: string, cs: seq<Code>, vs: seq<V>, c: CallOptions, a: CallArguments<V>,
                                rt: Runtime<V>)
    requires MeansAll(cs, vs, rt) && OptionsMean(c, a, rt)
    ensures Means(KnownCall(name, cs, c), rt.call(rt.helper(name), vs, a), rt)
  {
    hide MeansAll, OptionsMean, EvalAll, EvalOptions;
    forall st: Store<V>
      ensures Eval(KnownCall(name, cs, c), rt, st).0 == rt.call(rt.helper(name), vs, a)
    {
      EvalAllMeans(cs, vs, rt, st);
      EvalOptionsMeans(c, a, rt, EvalAll(cs, rt, st).1);
    }
  }

  lemma HelperCallMeans<V(!new)>(simple: bool, name: string, n: Code, nv: V, cs: seq<Code>, vs: seq<V>,
                                 c: CallOptions, a: CallArguments<V>, rt: Runtime<V>)
    requires Means(n, nv, rt) && MeansAll(cs, vs, rt) && OptionsMean(c, a, rt)
    ensures Means(HelperCall(simple, name, n, cs, c), CallHelper(rt, simple, name, nv, vs, a), rt)
  {
    hide MeansAll, OptionsMean, EvalAll, EvalOptions;
    forall st: Store<V>
      ensures Eval(HelperCall(simple, name, n, cs, c), rt, st).0 == CallHelper(rt, simple, name, nv, vs, a)
    {
      var st1 := if simple && rt.truthy(rt.helper(name)) then st else Eval(n, rt, st).1;
      assert Eval(n, rt, st).0 == nv;
      EvalAllMeans(cs, vs, rt, st1);
      EvalOptionsMeans(c, a, rt, EvalAll(cs, rt, st1).1);
    }
  }

  lemma LambdaMeans<V(!new)>(c: Code, v: V, rt: Runtime<V>)
    requires Means(c, v, rt)
    ensures Means(Lambda(c), rt.lambda(v), rt)
  {
  }

  /** The end of a helper call: its arguments become one call. */
  lemma RunInvoke<V(!new)>(s: State, base: seq<Slot>, p: Pushed, path: Path, es: seq<Expr>, hash: Denoted<V>,
                           program: Option<nat>, inverse: Option<nat>, o: Options, bp: Scope, rt: Runtime<V>)
    returns (t: State, y: Slot)
    requires OneMode(o) && PushedArgs(p.xs, p.args, o) && PushedArg(p.hs, p.hash, o)
    requires ArgsOf(p.args, es, o, bp, rt) && ArgMeans(p.hash, hash, rt)
    requires s.inlineStack == base + p.xs + [Lit(ProgramCode(program)), Lit(ProgramCode(inverse))] + p.hs
    ensures Run(s, EmitInvoke(path, |es|, o, bp), o) == Some(t)
    ensures Pushes(s.(inlineStack := base), t, [y]) && y.Inline? && !y.code.Atomic?
    ensures Means(y.code, DenoteCall(path, DenoteParams(es, o, bp, rt), hash, program, inverse, o, bp, rt), rt)
  {
    hide Means, PushedArg, PushedArgs, DenoteOptions, Picked, Each, EmitPath, DenotePath, CallHelper, Run, Step,
         ArgMeans, DenoteParams;
    var ds := DenoteParams(es, o, bp, rt);
    ArgsMean(p.args, es, o, bp, rt);
    if Known(o, HeadName(path)) {
      t, y := RunInvokeKnown(s, base, p, HeadName(path), es, ds, hash, program, inverse, o, rt);
    } else {
      var s1, n := RunPath(s, path, true, true, o, bp, rt);
      var op := InvokeHelper(|es|, path.original, SimpleId(path));
      t, y := RunInvokeHelper(s1, s, base, n, DenotePath(path, true, bp, rt), p, op, es, ds, hash, program, inverse, o,
                              rt);
      RunThen(s, EmitPath(path, true, true, bp), s1, [op], o);
    }
  }

  lemma ArgsMean<V(!new)>(args: seq<Arg>, es: seq<Expr>, o: Options, bp: Scope, rt: Runtime<V>)
    requires ArgsOf(args, es, o, bp, rt)
    ensures |args| == |es| && forall i :: 0 <= i < |args| ==> ArgMeans(args[i], DenoteParams(es, o, bp, rt)[i], rt)
  {
    hide ArgMeans, DenoteParam;
    forall i | 0 <= i < |args|
      ensures ArgMeans(args[i], DenoteParams(es, o, bp, rt)[i], rt)
    {
      DenoteParamsAt(es, o, bp, rt, i);
    }
  }

  lemma RunInvokeKnown<V(!new)>(s: State, base: seq<Slot>, p: Pushed, name: string, es: seq<Expr>, ds: seq<Denoted<V>>,
                                hash: Denoted<V>, program: Option<nat>, inverse: Option<nat>, o: Options,
                                rt: Runtime<V>)
    returns (t: State, y: Slot)
    requires OneMode(o) && PushedArgs(p.xs, p.args, o) && PushedArg(p.hs, p.hash, o)
    requires |p.args| == |ds| == |es| && (forall i :: 0 <= i < |p.args| ==> ArgMeans(p.args[i], ds[i], rt)) &&
             ArgMeans(p.hash, hash, rt)
    requires s.inlineStack == base + p.xs + [Lit(ProgramCode(program)), Lit(ProgramCode(inverse))] + p.hs
    ensures Run(s, [InvokeKnownHelper(|es|, name)], o) == Some(t)
    ensures Pushes(s.(inlineStack := base), t, [y]) && y.Inline? && !y.code.Atomic?
    ensures Means(y.code, rt.call(rt.helper(name), Each(ds, ValuePart),
                                  DenoteOptions(name, ds, hash, program, inverse, o, rt)), rt)
  {
    hide Means, PushedArg, PushedArgs, SetupParams, MeansAll, OptionsMean, DenoteOptions, Picked, Each, ArgMeans, Run;
    var u := SetupMeans(s, base, p, name, es, ds, hash, program, inverse, o, rt);
    KnownCallMeans(name, Picked(u.args, ValuePart), Each(ds, ValuePart), u.options,
                   DenoteOptions(name, ds, hash, program, inverse, o, rt), rt);
    RunOne(s, InvokeKnownHelper(|es|, name), o);
    y := Inline(KnownCall(name, Picked(u.args, ValuePart), u.options));
    t := Push(u.rest, y);
  }

  /** The looked-up value n lies on top of the arguments. */
  lemma RunInvokeHelper<V(!new)>(s1: State, s: State, base: seq<Slot>, n: Slot, v: V, p: Pushed, op: Opcode,
                                 es: seq<Expr>, ds: seq<Denoted<V>>,
                                 hash: Denoted<V>, program: Option<nat>, inverse: Option<nat>, o: Options,
                                 rt: Runtime<V>)
    returns (t: State, y: Slot)
    requires OneMode(o) && PushedArgs(p.xs, p.args, o) && PushedArg(p.hs, p.hash, o)
    requires |p.args| == |ds| == |es| && (forall i :: 0 <= i < |p.args| ==> ArgMeans(p.args[i], ds[i], rt)) &&
             ArgMeans(p.hash, hash, rt)
    requires s.inlineStack == base + p.xs + [Lit(ProgramCode(program)), Lit(ProgramCode(inverse))] + p.hs
    requires Pushes(s, s1, [n]) && Means(n.code, v, rt) && op.InvokeHelper? && op.paramSize == |es|
    ensures Run(s1, [op], o) == Some(t)
    ensures Pushes(s.(inlineStack := base), t, [y]) && y.Inline? && !y.code.Atomic?
    ensures Means(y.code, CallHelper(rt, op.isSimple, op.name, v, Each(ds, ValuePart),
                                     DenoteOptions(op.name, ds, hash, program, inverse, o, rt)), rt)
  {
    hide Means, PushedArg, PushedArgs, SetupParams, MeansAll, OptionsMean, DenoteOptions, Picked, Each, ArgMeans, Run,
         CallHelper;
    PopTop(s1, s.inlineStack, n);
    var s2 := s1.(inlineStack := s.inlineStack);
    var u := SetupMeans(s2, base, p, op.name, es, ds, hash, program, inverse, o, rt);
    HelperCallMeans(op.isSimple, op.name, n.code, v, Picked(u.args, ValuePart), Each(ds, ValuePart), u.options,
                    DenoteOptions(op.name, ds, hash, program, inverse, o, rt), rt);
    RunOne(s1, op, o);
    y := Inline(HelperCall(op.isSimple, op.name, n.code, Picked(u.args, ValuePart), u.options));
    t := Push(u.rest, y);
  }

  /** Every expression runs, and leaves one entry that computes its denotation. */
  lemma {:induction false} RunExpr<V(!new)>(s: State, e: Expr, o: Options, bp: Scope, rt: Runtime<V>)
    returns (t: State, y: Slot)
    requires OneMode(o) && PlainExpr(e) && Ready(s)
    ensures Run(s, EmitExpr(e, o, bp), o) == Some(t) && Pushes(s, t, [y])
    ensures Means(y.code, Denote(e, o, bp, rt), rt)
    ensures y.code == Atomic(Text(Undefined)) <==> e.UndefinedLiteral?
    decreases e, 1
  {
    hide Means, Run, EmitPath, DenotePath, ClassifySexpr, SurelyHelper, PerhapsHelper;
    match e
    case PathExpression(p) =>
      t, y := RunPath(s, p, false, false, o, bp, rt);
    case SubExpression(p, params, hash) =>
      KindIff(o, bp, p, true);
      if ClassifySexpr(o, bp, p, true).Simple? {
        var s1, x := RunPath(s, p, false, true, o, bp, rt);
        t, y := RunLambda(s, s1, x, EmitPath(p, false, true, bp), DenotePath(p, false, bp, rt), o, rt);
      } else {
        SubNeverAmbiguous(o, bp, p);
        t, y := RunCall(s, e, p, params, hash, None, None, o, bp, rt);
        assert EmitExpr(e, o, bp) ==
          EmitParams(params, o, bp) + [PushProgram(None), PushProgram(None)] + EmitHash(hash, false, o, bp) +
          EmitInvoke(p, |params|, o, bp);
      }
    case StringLiteral(x) =>
      t, y := RunLiteral(s, PushString(x), Quoted(x), o, rt);
    case NumberLiteral(d, u) =>
      t, y := RunLiteral(s, PushLiteral(Number(d, u)), Number(d, u), o, rt);
    case BooleanLiteral(b) =>
      t, y := RunLiteral(s, PushLiteral(Bool(b)), Bool(b), o, rt);
    case UndefinedLiteral =>
      t, y := RunLiteral(s, PushLiteral(Undefined), Undefined, o, rt);
    case NullLiteral =>
      t, y := RunLiteral(s, PushLiteral(Null), Null, o, rt);
  }

  lemma RunLiteral<V(!new)>(s: State, op: Opcode, l: Literal, o: Options, rt: Runtime<V>) returns (t: State, y: Slot)
    requires op == PushLiteral(l) || (l.Quoted? && op == PushString(l.text))
    ensures Run(s, [op], o) == Some(t) && Pushes(s, t, [y]) && y == LiteralSlot(l) &&
            Means(y.code, rt.atom(Text(l)), rt)
  {
    hide Means, Run;
    y := LiteralSlot(l);
    AtomMeans(Text(l), rt);
    RunOne(s, op, o);
    t := Push(s, y);
  }

  lemma SubNeverAmbiguous(o: Options, bp: Scope, p: Path)
    ensures !ClassifySexpr(o, bp, p, true).Ambiguous?
  {
  }

  lemma RunLambda<V(!new)>(s: State, s1: State, x: Slot, ops: seq<Opcode>, v: V, o: Options, rt: Runtime<V>)
    returns (t: State, y: Slot)
    requires Run(s, ops, o) == Some(s1) && Pushes(s, s1, [x]) && Means(x.code, v, rt)
    ensures Run(s, ops + [ResolvePossibleLambda], o) == Some(t) && Pushes(s, t, [y])
    ensures y.Inline? && Means(y.code, rt.lambda(v), rt) && !y.code.Atomic?
  {
    hide Means, Run;
    LambdaMeans(x.code, v, rt);
    PopTop(s1, s.inlineStack, x);
    RunThen(s, ops, s1, [ResolvePossibleLambda], o);
    RunOne(s1, ResolvePossibleLambda, o);
    y := Inline(Lambda(x.code));
    t := Push(s1.(inlineStack := s.inlineStack), y);
  }

  /** Parameters, programs and hash, in the order they are pushed. */
  lemma {:induction false} RunArguments<V(!new)>(s: State, owner: Expr, params: seq<Expr>, hash: Hash, omitEmpty: bool,
                                                 program: Option<nat>, inverse: Option<nat>, o: Options, bp: Scope,
                                                 rt: Runtime<V>)
    returns (p: Pushed)
    requires OneMode(o) && PlainExprs(params) && PlainHash(hash) && Ready(s)
    requires owner.SubExpression? && owner.params == params && owner.hash == hash
    ensures Run(s, EmitParams(params, o, bp) + [PushProgram(program), PushProgram(inverse)] +
                EmitHash(hash, omitEmpty, o, bp), o)
            == Some(p.state)
    ensures Pushes(s, p.state, p.xs + [Lit(ProgramCode(program)), Lit(ProgramCode(inverse))] + p.hs)
    ensures PushedArgs(p.xs, p.args, o) && PushedArg(p.hs, p.hash, o)
    ensures ArgsOf(p.args, params, o, bp, rt) && ArgMeans(p.hash, DenoteHash(hash, omitEmpty, o, bp, rt), rt)
    decreases owner, 0, 0
  {
    hide Means, Run, PushedArg, PushedArgs, ArgsOf, ArgMeans, EmitHash, EmitParams, DenoteHash, PlainExprs, PlainHash;
    var s1, xs, args := RunParams(s, params, o, bp, rt);
    var g, h := Lit(ProgramCode(program)), Lit(ProgramCode(inverse));
    var s2 := Push(Push(s1, g), h);
    RunPrograms(s1, program, inverse, o);
    assert Pushes(s1, s2, [g, h]);
    var s3, hs, a := RunHash(s2, hash, omitEmpty, o, bp, rt);
    RunThen(s, EmitParams(params, o, bp), s1, [PushProgram(program), PushProgram(inverse)], o);
    RunThen(s, EmitParams(params, o, bp) + [PushProgram(program), PushProgram(inverse)], s2,
            EmitHash(hash, omitEmpty, o, bp), o);
    PushesTrans(s, s1, s2, xs, [g, h]);
    PushesTrans(s, s2, s3, xs + [g, h], hs);
    p := Pushed(s3, args, a, xs, hs);
  }

  lemma RunPrograms(s: State, program: Option<nat>, inverse: Option<nat>, o: Options)
    ensures Run(s, [PushProgram(program), PushProgram(inverse)], o) ==
            Some(Push(Push(s, Lit(ProgramCode(program))), Lit(ProgramCode(inverse))))
  {
    hide Run;
    var s1 := Push(s, Lit(ProgramCode(program)));
    RunOne(s, PushProgram(program), o);
    RunOne(s1, PushProgram(inverse), o);
    RunThen(s, [PushProgram(program)], s1, [PushProgram(inverse)], o);
    assert [PushProgram(program)] + [PushProgram(inverse)] == [PushProgram(program), PushProgram(inverse)];
  }

  lemma {:induction false} RunCall<V(!new)>(s: State, owner: Expr, path: Path, params: seq<Expr>, hash: Hash,
                                            program: Option<nat>, inverse: Option<nat>, o: Options, bp: Scope,
                                            rt: Runtime<V>)
    returns (t: State, y: Slot)
    requires OneMode(o) && PlainExprs(params) && PlainHash(hash) && Ready(s)
    requires owner.SubExpression? && owner.params == params && owner.hash == hash
    ensures Run(s, EmitParams(params, o, bp) + [PushProgram(program), PushProgram(inverse)] +
                EmitHash(hash, false, o, bp) +
                   EmitInvoke(path, |params|, o, bp), o) == Some(t)
    ensures Pushes(s, t, [y]) && y.Inline? && !y.code.Atomic?
    ensures Means(y.code, DenoteCall(path, DenoteParams(params, o, bp, rt), DenoteHash(hash, false, o, bp, rt),
                                     program, inverse, o, bp, rt), rt)
    decreases owner, 0, 1
  {
    hide Means, Run, PushedArg, PushedArgs, ArgsOf, ArgMeans, EmitHash, EmitParams, EmitInvoke, DenoteHash,
         DenoteParams, DenoteCall;
    var p := RunArguments(s, owner, params, hash, false, program, inverse, o, bp, rt);
    var gs := [Lit(ProgramCode(program)), Lit(ProgramCode(inverse))];
    assert s.inlineStack + (p.xs + gs + p.hs) == s.inlineStack + p.xs + gs + p.hs;
    t, y := RunInvoke(p.state, s.inlineStack, p, path, params, DenoteHash(hash, false, o, bp, rt), program, inverse, o,
                      bp, rt);
    RunThen(s, EmitParams(params, o, bp) + [PushProgram(program), PushProgram(inverse)] + EmitHash(hash, false, o, bp),
            p.state,
            EmitInvoke(path, |params|, o, bp), o);
  }

  lemma {:induction false} RunParam<V(!new)>(s: State, e: Expr, o: Options, bp: Scope, rt: Runtime<V>)
    returns (t: State, xs: seq<Slot>, a: Arg)
    requires OneMode(o) && PlainExpr(e) && Ready(s)
    ensures Run(s, EmitParam(e, o, bp), o) == Some(t) && Pushes(s, t, xs)
    ensures PushedArg(xs, a, o) && ArgOf(a, e, o, bp, rt)
    decreases e, 3
  {
    hide Means, Run, EmitExpr, Denote, IdOf;
    AtomMeans(Absent, rt);
    if o.stringParams {
      t, xs, a := RunStringParam(s, e, o, bp, rt);
    } else if o.trackIds {
      var id := IdSlot(IdOf(e, bp));
      var s1 := Push(s, id);
      var s2, y := RunExpr(s1, e, o, bp, rt);
      RunOne(s, PushId(IdOf(e, bp)), o);
      RunThen(s, [PushId(IdOf(e, bp))], s1, EmitExpr(e, o, bp), o);
      AtomMeans(id.code.atom, rt);
      PushesTrans(s, s1, s2, [id], [y]);
      t, xs, a := s2, [id, y], Arg(y.code, id.code, Atomic(Absent), Atomic(Absent));
      assert [id] + [y] == xs;
    } else {
      var y;
      t, y := RunExpr(s, e, o, bp, rt);
      assert [] + EmitExpr(e, o, bp) == EmitExpr(e, o, bp);
      xs, a := [y], Arg(y.code, Atomic(Absent), Atomic(Absent), Atomic(Absent));
    }
  }

  lemma {:induction false} RunStringParam<V(!new)>(s: State, e: Expr, o: Options, bp: Scope, rt: Runtime<V>)
    returns (t: State, xs: seq<Slot>, a: Arg)
    requires OneMode(o) && o.stringParams && PlainExpr(e) && Ready(s)
    ensures Run(s, EmitParam(e, o, bp), o) == Some(t) && Pushes(s, t, xs)
    ensures PushedArg(xs, a, o) && ArgOf(a, e, o, bp, rt)
    decreases e, 2
  {
    hide Means, Run, EmitExpr, Denote, StringModeValue;
    var depth := if e.PathExpression? then e.path.depth else 0;
    var s1 := s.(lastContext := depth);
    var context, typ, value := Lit(Atomic(Context(depth))), LiteralSlot(Quoted(TypeName(e))),
      LiteralSlot(StringModeValue(e));
    var op := PushStringParam(StringModeValue(e), TypeName(e));
    var s2 := Step(s1, op, o).value;
    RunOne(s, GetContext(depth), o);
    RunOne(s1, op, o);
    RunThen(s, [GetContext(depth)], s1, [op], o);
    assert [GetContext(depth)] + [op] == [GetContext(depth), op];
    TypeNames(e);
    AtomMeans(Absent, rt);
    AtomMeans(context.code.atom, rt);
    AtomMeans(typ.code.atom, rt);
    AtomMeans(value.code.atom, rt);
    NeverUndefined(e);
    if e.SubExpression? {
      var s3, y := RunExpr(s2, e, o, bp, rt);
      RunThen(s, [GetContext(depth), op], s2, EmitExpr(e, o, bp), o);
      assert s2 == s1.(inlineStack := s.inlineStack + [context] + [typ]);
      t, xs, a := s3, [context, typ, y], Arg(y.code, Atomic(Absent), typ.code, context.code);
      assert s.inlineStack + [context] + [typ] + [y] == s.inlineStack + xs;
    } else {
      assert [GetContext(depth), op] + [] == [GetContext(depth), op];
      t, xs, a := s2, [context, typ, value], Arg(value.code, Atomic(Absent), typ.code, context.code);
      assert s.inlineStack + [context] + [typ] + [value] == s.inlineStack + xs;
    }
  }

  lemma NeverUndefined(e: Expr)
    ensures !StringModeValue(e).Undefined?
  {
  }

  lemma TypeNames(e: Expr)
    ensures TypeName(e) == "SubExpression" <==> e.SubExpression?
  {
    if !e.SubExpression? {
      assert TypeName(e)[0] != 'S' || TypeName(e)[1] == 't';
    }
  }

  lemma {:induction false} RunParams<V(!new)>(s: State, es: seq<Expr>, o: Options, bp: Scope, rt: Runtime<V>)
    returns (t: State, xs: seq<Slot>, args: seq<Arg>)
    requires OneMode(o) && PlainExprs(es) && Ready(s)
    ensures Run(s, EmitParams(es, o, bp), o) == Some(t) && Pushes(s, t, xs)
    ensures PushedArgs(xs, args, o) && ArgsOf(args, es, o, bp, rt)
    decreases es, 3
  {
    hide Run, PushedArg, ArgOf, EmitParam, PlainExpr;
    if es == [] {
      t, xs, args := s, [], [];
      RunNothing(s, o);
      assert s.inlineStack + [] == s.inlineStack;
    } else {
      var s1, ys, a := RunParam(s, es[0], o, bp, rt);
      var s2, zs, as' := RunParams(s1, es[1..], o, bp, rt);
      RunThen(s, EmitParam(es[0], o, bp), s1, EmitParams(es[1..], o, bp), o);
      PushedSingle(ys, a, o);
      PushedConcat(ys, [a], zs, as', o);
      PushesTrans(s, s1, s2, ys, zs);
      t, xs, args := s2, ys + zs, [a] + as';
    }
  }

  lemma RunNothing(s: State, o: Options)
    ensures Run(s, [], o) == Some(s)
  {
  }

  lemma {:induction false} RunHash<V(!new)>(s: State, hash: Hash, omitEmpty: bool, o: Options, bp: Scope,
                                            rt: Runtime<V>)
    returns (t: State, xs: seq<Slot>, a: Arg)
    requires OneMode(o) && PlainHash(hash) && Ready(s)
    ensures Run(s, EmitHash(hash, omitEmpty, o, bp), o) == Some(t) && Pushes(s, t, xs)
    ensures PushedArg(xs, a, o) && ArgMeans(a, DenoteHash(hash, omitEmpty, o, bp, rt), rt)
    decreases hash
  {
    hide Means, Run;
    match hash
    case NoHash =>
      t, xs, a := RunEmptyHash(s, omitEmpty, o, bp, rt);
    case Pairs(pairs) =>
      hide EmitValues, EmitKeys, PlainPairs, HashHolds, PushedArgs, ArgsOf, PushedArg, ArgMeans, DenoteHash;
      var s1 := PushHashStep(s);
      RunOne(s, PushHash, o);
      var s2, ys, args := RunValues(s1, pairs, o, bp, rt);
      var s3 := RunKeys(s2, s.inlineStack, ys, args, pairs, o, bp, rt);
      RunThen(s, [PushHash], s1, EmitValues(pairs, o, bp), o);
      RunThen(s, [PushHash] + EmitValues(pairs, o, bp), s2, EmitKeys(pairs), o);
      t, xs, a := RunPairsEnd(s, s3, pairs, omitEmpty, o, bp, rt);
      RunThen(s, [PushHash] + EmitValues(pairs, o, bp) + EmitKeys(pairs), s3, [PopHash], o);
  }

  /** popHash, once the keys have their values. */
  lemma RunPairsEnd<V(!new)>(s: State, s3: State, pairs: seq<Pair>, omitEmpty: bool, o: Options, bp: Scope,
                             rt: Runtime<V>)
    returns (t: State, xs: seq<Slot>, a: Arg)
    requires OneMode(o) && PlainPairs(pairs) && Ready(s) && s3.hash.Some?
    requires s3 == PushHashStep(s).(inlineStack := s.inlineStack, hash := s3.hash, stackVars :=
                                    s3.stackVars, lastContext := s3.lastContext)
    requires HashHolds(s3.hash.value, pairs, DenoteParams(PairValues(pairs), o, bp, rt), o, rt)
    ensures Run(s3, [PopHash], o) == Some(t) && Pushes(s, t, xs)
    ensures PushedArg(xs, a, o) && ArgMeans(a, DenoteHash(Pairs(pairs), omitEmpty, o, bp, rt), rt)
  {
    hide Means, Run, Step, PlainPairs, HashHolds, PushedArg, ArgMeans, DenoteHash, DenoteParams, PairValues,
         PushHashStep, HashArg, ListableHash;
    HoldingListable(s3.hash.value, pairs, DenoteParams(PairValues(pairs), o, bp, rt), o, rt);
    t, xs := RunPopHash(s, s3, o);
    a := HashArg(s3.hash.value, o);
    HashArgMeans(s3.hash.value, pairs, omitEmpty, o, bp, rt);
    RunOne(s3, PopHash, o);
  }

  lemma RunEmptyHash<V(!new)>(s: State, omitEmpty: bool, o: Options, bp: Scope, rt: Runtime<V>)
    returns (t: State, xs: seq<Slot>, a: Arg)
    requires OneMode(o)
    ensures Step(s, EmptyHash(omitEmpty), o) == Some(t) && t == EmptyHashStep(s, omitEmpty, o) && Pushes(s, t, xs)
    ensures Run(s, EmitHash(NoHash, omitEmpty, o, bp), o) == Some(t)
    ensures PushedArg(xs, a, o) && ArgMeans(a, DenoteHash(NoHash, omitEmpty, o, bp, rt), rt)
  {
    hide Means, Run;
    RunOne(s, EmptyHash(omitEmpty), o);
    AtomMeans(Braces, rt);
    AtomMeans(Absent, rt);
    AtomMeans(Text(Undefined), rt);
    t := EmptyHashStep(s, omitEmpty, o);
    var value := Atomic(if omitEmpty then Text(Undefined) else Braces);
    var brace := Inline(Atomic(Braces));
    if o.stringParams {
      xs, a := [brace, brace, Lit(value)], Arg(value, Atomic(Absent), Atomic(Braces), Atomic(Braces));
    } else if o.trackIds {
      xs, a := [brace, Lit(value)], Arg(value, Atomic(Braces), Atomic(Absent), Atomic(Absent));
    } else {
      xs, a := [Lit(value)], Arg(value, Atomic(Absent), Atomic(Absent), Atomic(Absent));
    }
    assert t.inlineStack == s.inlineStack + xs;
  }

  lemma {:induction false} RunValues<V(!new)>(s: State, pairs: seq<Pair>, o: Options, bp: Scope, rt: Runtime<V>)
    returns (t: State, xs: seq<Slot>, args: seq<Arg>)
    requires OneMode(o) && PlainPairs(pairs) && Ready(s)
    ensures Run(s, EmitValues(pairs, o, bp), o) == Some(t) && Pushes(s, t, xs)
    ensures PushedArgs(xs, args, o) && ArgsOf(args, PairValues(pairs), o, bp, rt)
    decreases pairs
  {
    hide Run, PushedArg, ArgOf, EmitParam, PlainExpr;
    if pairs == [] {
      t, xs, args := s, [], [];
      RunNothing(s, o);
      assert s.inlineStack + [] == s.inlineStack;
    } else {
      var s1, ys, a := RunParam(s, pairs[0].value, o, bp, rt);
      var s2, zs, as' := RunValues(s1, pairs[1..], o, bp, rt);
      RunThen(s, EmitParam(pairs[0].value, o, bp), s1, EmitValues(pairs[1..], o, bp), o);
      PushedSingle(ys, a, o);
      PushedConcat(ys, [a], zs, as', o);
      PushesTrans(s, s1, s2, ys, zs);
      t, xs, args := s2, ys + zs, [a] + as';
    }
  }

  /** The argument popHash makes of a finished hash. */
  function HashArg(h: HashState, o: Options): Arg {
    Arg(HashLiteral(h.values),
        if o.trackIds then HashLiteral(h.ids) else Atomic(Absent),
        if o.stringParams then HashLiteral(h.types) else Atomic(Absent),
        if o.stringParams then HashLiteral(h.contexts) else Atomic(Absent))
  }

  lemma HashArgMeans<V(!new)>(h: HashState, pairs: seq<Pair>, omitEmpty: bool, o: Options, bp: Scope, rt: Runtime<V>)
    requires HashHolds(h, pairs, DenoteParams(PairValues(pairs), o, bp, rt), o, rt)
    ensures ArgMeans(HashArg(h, o), DenoteHash(Pairs(pairs), omitEmpty, o, bp, rt), rt)
  {
    hide Means, EntriesMean, Assigned, Items, Each, DenoteParam, DenotePairs, PartMap, UndefinedKeys;
    var ds := DenoteParams(PairValues(pairs), o, bp, rt);
    AtomMeans(Absent, rt);
    LiteralMeans(h.values, pairs, ds, ValuePart, !o.stringParams, o, bp, rt);
    if o.stringParams {
      StringModeKeys(pairs, o);
      LiteralMeans(h.types, pairs, ds, TypePart, false, o, bp, rt);
      LiteralMeans(h.contexts, pairs, ds, ContextPart, false, o, bp, rt);
    }
    if o.trackIds {
      LiteralMeans(h.ids, pairs, ds, IdPart, false, o, bp, rt);
    }
  }

  lemma {:induction false} AssignedLacks<V>(items: seq<Keyed<V>>, key: string)
    requires !HasKey(items, key)
    ensures !HasKey(Assigned(items), key)
  {
    hide HasKey, PutKeyed;
    if items == [] {
      NoKey<V>(key);
    } else {
      assert items == [items[0]] + items[1..];
      HasCons(items[0], items[1..], key);
      AssignedLacks(items[1..], key);
      PutKeys(Assigned(items[1..]), items[0], key);
    }
  }

  lemma NoKey<V>(key: string)
    ensures !HasKey<V>([], key)
  {
  }

  lemma {:induction false} ItemsPlain<V>(pairs: seq<Pair>, vs: seq<V>, drops: bool)
    requires |pairs| == |vs| && PlainPairs(pairs)
    ensures !HasKey(Items(pairs, vs, drops), "hasOwnProperty")
  {
    hide HasKey, PlainExpr;
    if pairs == [] {
      NoKey<V>("hasOwnProperty");
    } else {
      ItemsPlain(pairs[1..], vs[1..], drops);
      HasCons(Items(pairs, vs, drops)[0], Items(pairs[1..], vs[1..], drops), "hasOwnProperty");
    }
  }

  lemma MeaningListable<V(!new)>(es: seq<Entry>, pairs: seq<Pair>, vs: seq<V>, drops: bool, rt: Runtime<V>)
    requires |pairs| == |vs| && PlainPairs(pairs) && EntriesMean(es, Assigned(Items(pairs, vs, drops)), rt)
    ensures Listable(es)
  {
    hide Means, Assigned, Items;
    ItemsPlain(pairs, vs, drops);
    AssignedLacks(Items(pairs, vs, drops), "hasOwnProperty");
  }

  lemma HoldingListable<V(!new)>(h: HashState, pairs: seq<Pair>, ds: seq<Denoted<V>>, o: Options, rt: Runtime<V>)
    requires HashHolds(h, pairs, ds, o, rt) && PlainPairs(pairs)
    ensures ListableHash(h, o)
  {
    hide EntriesMean, Assigned, Items, Listable, PlainPairs;
    MeaningListable(h.values, pairs, Each(ds, ValuePart), !o.stringParams, rt);
    if o.trackIds {
      MeaningListable(h.ids, pairs, Each(ds, IdPart), false, rt);
    }
    if o.stringParams {
      MeaningListable(h.types, pairs, Each(ds, TypePart), false, rt);
      MeaningListable(h.contexts, pairs, Each(ds, ContextPart), false, rt);
    }
  }

  /** popHash leaves the assembled object and brings the outer hash back. */
  lemma RunPopHash(s: State, s3: State, o: Options) returns (t: State, xs: seq<Slot>)
    requires OneMode(o) && Ready(s) && s3.hash.Some? && ListableHash(s3.hash.value, o)
    requires s3 == PushHashStep(s).(inlineStack := s.inlineStack, hash := s3.hash, stackVars :=
                                    s3.stackVars, lastContext := s3.lastContext)
    ensures Step(s3, PopHash, o) == Some(t) && Pushes(s, t, xs) && PushedArg(xs, HashArg(s3.hash.value, o), o)
  {
    var h := s3.hash.value;
    t := Step(s3, PopHash, o).value;
    if s.hash.Some? {
      assert (s.hashes + [s.hash.value])[..|s.hashes|] == s.hashes;
    }
    xs := (if o.trackIds then [Inline(HashLiteral(h.ids))] else []) +
          (if o.stringParams then [Inline(HashLiteral(h.contexts)), Inline(HashLiteral(h.types))] else []) +
          [Inline(HashLiteral(h.values))];
    assert t.inlineStack == s.inlineStack + xs;
  }

  lemma {:induction false} StringModeKeys(pairs: seq<Pair>, o: Options)
    requires o.stringParams
    ensures UndefinedKeys(pairs, o) == {}
  {
    if pairs != [] {
      StringModeKeys(pairs[1..], o);
    }
  }
}
