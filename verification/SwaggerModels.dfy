/** swagger.js: signatures and JSON samples of models that may refer to each other in cycles. */
module SwaggerModels {
  import opened Wrappers
  import opened Strings

  /** A JSON value; an object made from a model keeps the model's name, and a preset sample is not looked into. */
  datatype Json = Plain(text: string) | List(items: seq<Json>) | Expansion(model: string,
      fields: seq<Field>) | Preset(model: string)

  datatype Field = Field(name: string, value: Json)

  /** `text` is what toString prints, `sample` what toSampleValue gives. */
  datatype Property = Property(name: string, ref: Option<string>, isCollection: bool, text: string, sample: string)

  datatype Model = Model(properties: seq<Property>)

  /** The models by their names, which are unique; references are to models that exist. */
  type Models = map<string, Model>

  predicate Linked(ms: Models) {
    forall name :: name in ms ==> LinkedProperties(ms, ms[name].properties)
  }

  predicate LinkedProperties(ms: Models, ps: seq<Property>) {
    forall i :: 0 <= i < |ps| ==> (ps[i].ref.Some? ==> ps[i].ref.value in ms)
  }

  function Names(list: seq<string>): set<string> { set n | n in list }

  /** The models not yet on the list. */
  function Unseen(ms: Models, list: seq<string>): set<string> { ms.Keys - Names(list) }

  lemma UnseenShrinks(ms: Models, list: seq<string>, more: seq<string>)
    ensures Unseen(ms, list + more) <= Unseen(ms, list) && |Unseen(ms, list + more)| <= |Unseen(ms, list)|
  {
    SmallerSet(Unseen(ms, list + more), Unseen(ms, list));
  }

  lemma UnseenDrops(ms: Models, list: seq<string>, name: string)
    requires name in ms && name !in list
    ensures |Unseen(ms, list + [name])| < |Unseen(ms, list)|
  {
    assert name in Unseen(ms, list);
    SmallerSet(Unseen(ms, list + [name]), Unseen(ms, list) - {name});
  }

  lemma {:induction false} SmallerSet<T>(a: set<T>, b: set<T>)
    requires a <= b
    ensures |a| <= |b|
    decreases |a|
  {
    if a != {} {
      var x :| x in a;
      SmallerSet(a - {x}, b - {x});
    }
  }

  // ---------- The order in which signatures are printed ----------

  /** The models printed for a model and, in order, for what it refers to, none that is on the list. */
  function Visit(ms: Models, name: string, ignore: seq<string>): (printed: seq<string>)
    requires Linked(ms) && name in ms && name !in ignore
    ensures printed != [] && printed[0] == name
    decreases |Unseen(ms, ignore)|, 0
  {
    UnseenDrops(ms, ignore, name);
    [name] + VisitProperties(ms, ms[name].properties, ignore + [name])
  }

  function VisitProperties(ms: Models, ps: seq<Property>, ignore: seq<string>): seq<string>
    requires Linked(ms) && LinkedProperties(ms, ps)
    decreases |Unseen(ms, ignore)|, 1 + |ps|
  {
    if ps == [] then []
    else if ps[0].ref.None? || ps[0].ref.value in ignore then VisitProperties(ms, ps[1..], ignore)
    else
      var printed := Visit(ms, ps[0].ref.value, ignore);
      UnseenShrinks(ms, ignore, printed);
      printed + VisitProperties(ms, ps[1..], ignore + printed)
  }

  predicate Distinct(list: seq<string>) { forall i, j :: 0 <= i < j < |list| ==> list[i] != list[j] }

  predicate Fresh(printed: seq<string>, ms: Models, ignore: seq<string>) {
    Distinct(printed) && forall n :: n in printed ==> n in ms && n !in ignore
  }

  lemma FreshConcat(a: seq<string>, b: seq<string>, ms: Models, ignore: seq<string>)
    requires Fresh(a, ms, ignore) && Fresh(b, ms, ignore + a)
    ensures Fresh(a + b, ms, ignore)
  {
    var c := a + b;
    forall i, j | 0 <= i < j < |c|
      ensures c[i] != c[j]
    {
      if i < |a| && j >= |a| {
        assert c[i] == a[i] && a[i] in ignore + a;
        assert c[j] == b[j - |a|] && b[j - |a|] in b;
      }
    }
  }

  lemma {:induction false} VisitFresh(ms: Models, name: string, ignore: seq<string>)
    requires Linked(ms) && name in ms && name !in ignore
    ensures Fresh(Visit(ms, name, ignore), ms, ignore)
    decreases |Unseen(ms, ignore)|, 0
  {
    UnseenDrops(ms, ignore, name);
    PropertiesFresh(ms, ms[name].properties, ignore + [name]);
    FreshConcat([name], VisitProperties(ms, ms[name].properties, ignore + [name]), ms, ignore);
  }

  lemma {:induction false} PropertiesFresh(ms: Models, ps: seq<Property>, ignore: seq<string>)
    requires Linked(ms) && LinkedProperties(ms, ps)
    ensures Fresh(VisitProperties(ms, ps, ignore), ms, ignore)
    decreases |Unseen(ms, ignore)|, 1 + |ps|
  {
    hide Linked;
    if ps != [] {
      if ps[0].ref.None? || ps[0].ref.value in ignore {
        PropertiesFresh(ms, ps[1..], ignore);
      } else {
        var printed := Visit(ms, ps[0].ref.value, ignore);
        VisitFresh(ms, ps[0].ref.value, ignore);
        UnseenShrinks(ms, ignore, printed);
        PropertiesFresh(ms, ps[1..], ignore + printed);
        FreshConcat(printed, VisitProperties(ms, ps[1..], ignore + printed), ms, ignore);
      }
    }
  }

  /** The models a list of properties refers to. */
  predicate RefersTo(ps: seq<Property>, name: string) { exists i :: 0 <= i < |ps| && ps[i].ref == Some(name) }

  lemma RefersCons(ps: seq<Property>, name: string)
    requires ps != []
    ensures RefersTo(ps, name) <==> ps[0].ref == Some(name) || RefersTo(ps[1..], name)
  {
    if RefersTo(ps, name) && ps[0].ref != Some(name) {
      var i :| 0 <= i < |ps| && ps[i].ref == Some(name);
      assert ps[1..][i - 1].ref == Some(name);
    }
    if RefersTo(ps[1..], name) {
      var i :| 0 <= i < |ps[1..]| && ps[1..][i].ref == Some(name);
      assert ps[i + 1].ref == Some(name);
    }
  }

  /** Whatever a printed model refers to is printed too, or was on the list. */
  ghost predicate Closed(printed: seq<string>, ms: Models, ignore: seq<string>) {
    forall n, r :: n in printed && n in ms && RefersTo(ms[n].properties, r) ==> r in ignore + printed
  }

  lemma ClosedConcat(a: seq<string>, b: seq<string>, ms: Models, ignore: seq<string>)
    requires Closed(a, ms, ignore) && Closed(b, ms, ignore + a)
    ensures Closed(a + b, ms, ignore)
  {
    forall n, r | n in a + b && n in ms && RefersTo(ms[n].properties, r)
      ensures r in ignore + (a + b)
    {
      assert n in a || n in b;
      assert r in ignore + a + b;
    }
  }

  lemma {:induction false} VisitClosed(ms: Models, name: string, ignore: seq<string>)
    requires Linked(ms) && name in ms && name !in ignore
    ensures Closed(Visit(ms, name, ignore), ms, ignore)
    decreases |Unseen(ms, ignore)|, 0
  {
    UnseenDrops(ms, ignore, name);
    var rest := VisitProperties(ms, ms[name].properties, ignore + [name]);
    PropertiesClosed(ms, ms[name].properties, ignore + [name]);
    forall n, r | n in [name] + rest && n in ms && RefersTo(ms[n].properties, r)
      ensures r in ignore + ([name] + rest)
    {
      assert r in ignore + [name] + rest;
    }
  }

  lemma {:induction false} PropertiesClosed(ms: Models, ps: seq<Property>, ignore: seq<string>)
    requires Linked(ms) && LinkedProperties(ms, ps)
    ensures var printed := VisitProperties(ms, ps, ignore);
            Closed(printed, ms, ignore) && forall r :: RefersTo(ps, r) ==> r in ignore + printed
    decreases |Unseen(ms, ignore)|, 1 + |ps|
  {
    hide Linked, RefersTo;
    if ps == [] {
      NothingRefers();
    } else {
      var all := VisitProperties(ms, ps, ignore);
      if ps[0].ref.None? || ps[0].ref.value in ignore {
        PropertiesClosed(ms, ps[1..], ignore);
      } else {
        var printed := Visit(ms, ps[0].ref.value, ignore);
        VisitClosed(ms, ps[0].ref.value, ignore);
        UnseenShrinks(ms, ignore, printed);
        PropertiesClosed(ms, ps[1..], ignore + printed);
        ClosedConcat(printed, VisitProperties(ms, ps[1..], ignore + printed), ms, ignore);
        assert ignore + printed + VisitProperties(ms, ps[1..], ignore + printed) == ignore + all;
        assert printed[0] in all;
      }
      forall r | RefersTo(ps, r)
        ensures r in ignore + all
      {
        RefersCons(ps, r);
      }
    }
  }

  lemma NothingRefers()
    ensures forall r :: !RefersTo([], r)
  {
  }

  /** The model of the first reference that is not on the list is printed next. */
  lemma {:induction false} FirstReferenceNext(ms: Models, ps: seq<Property>, ignore: seq<string>, i: nat)
    requires Linked(ms) && LinkedProperties(ms, ps) && i < |ps| && ps[i].ref.Some? && ps[i].ref.value !in ignore
    requires forall k :: 0 <= k < i ==> ps[k].ref.None? || ps[k].ref.value in ignore
    ensures var printed := VisitProperties(ms, ps, ignore);
      printed != [] && printed[0] == ps[i].ref.value
    ensures var first := Visit(ms, ps[i].ref.value, ignore);
      VisitProperties(ms, ps, ignore) == first + VisitProperties(ms, ps[i + 1..], ignore + first)
    decreases i
  {
    hide Linked;
    if i > 0 {
      assert ps[1..][i - 1] == ps[i] && ps[1..][i..] == ps[i + 1..];
      FirstReferenceNext(ms, ps[1..], ignore, i - 1);
    }
  }

  // ---------- Reachability ----------

  /** A chain of references from one model to another. */
  predicate Chain(ms: Models, path: seq<string>) {
    path != [] && (forall i :: 0 <= i < |path| ==> path[i] in ms) &&
    forall i :: 0 <= i < |path| - 1 ==> RefersTo(ms[path[i]].properties, path[i + 1])
  }

  ghost predicate Reachable(ms: Models, root: string, name: string) {
    exists path :: Chain(ms, path) && path[0] == root && path[|path| - 1] == name
  }

  lemma ReachableSelf(ms: Models, name: string)
    requires name in ms
    ensures Reachable(ms, name, name)
  {
    assert Chain(ms, [name]) && [name][|[name]| - 1] == name;
  }

  lemma ReachableStep(ms: Models, root: string, mid: string, name: string)
    requires Reachable(ms, root, mid) && mid in ms && name in ms && RefersTo(ms[mid].properties, name)
    ensures Reachable(ms, root, name)
  {
    var path :| Chain(ms, path) && path[0] == root && path[|path| - 1] == mid;
    var longer := path + [name];
    assert Chain(ms, longer) && longer[|longer| - 1] == name;
  }

  lemma {:induction false} VisitReachable(ms: Models, root: string, name: string, ignore: seq<string>)
    requires Linked(ms) && name in ms && name !in ignore && Reachable(ms, root, name)
    ensures forall n :: n in Visit(ms, name, ignore) ==> Reachable(ms, root, n)
    decreases |Unseen(ms, ignore)|, 0
  {
    hide Reachable;
    UnseenDrops(ms, ignore, name);
    PropertiesReachable(ms, root, name, 0, ignore + [name]);
    assert ms[name].properties[0..] == ms[name].properties;
  }

  lemma {:induction false} PropertiesReachable(ms: Models, root: string, name: string, i: nat, ignore: seq<string>)
    requires Linked(ms) && name in ms && i <= |ms[name].properties| && Reachable(ms, root, name)
    requires LinkedProperties(ms, ms[name].properties[i..])
    ensures forall n :: n in VisitProperties(ms, ms[name].properties[i..], ignore) ==> Reachable(ms, root, n)
    decreases |Unseen(ms, ignore)|, 1 + |ms[name].properties| - i
  {
    hide Reachable;
    var ps := ms[name].properties;
    if i < |ps| {
      assert ps[i..][1..] == ps[i + 1..] && ps[i..][0] == ps[i];
      if ps[i].ref.None? || ps[i].ref.value in ignore {
        PropertiesReachable(ms, root, name, i + 1, ignore);
      } else {
        assert RefersTo(ps, ps[i].ref.value);
        ReachableStep(ms, root, name, ps[i].ref.value);
        var printed := Visit(ms, ps[i].ref.value, ignore);
        VisitReachable(ms, root, ps[i].ref.value, ignore);
        UnseenShrinks(ms, ignore, printed);
        PropertiesReachable(ms, root, name, i + 1, ignore + printed);
      }
    }
  }

  lemma {:induction false} ClosedReaches(ms: Models, printed: seq<string>, path: seq<string>, k: nat)
    requires Closed(printed, ms, []) && Chain(ms, path) && path[0] in printed && k < |path|
    ensures path[k] in printed
    decreases k
  {
    if k > 0 {
      ClosedReaches(ms, printed, path, k - 1);
      assert RefersTo(ms[path[k - 1]].properties, path[k]);
      assert path[k] in [] + printed;
    }
  }

  /** On any finite graph of models, cyclic or not, the signature of a model has each model it can reach, itself
      included, exactly once. */
  lemma SignaturePrintsReachableOnce(ms: Models, root: string, name: string)
    requires Linked(ms) && root in ms
    ensures name in Visit(ms, root, []) <==> Reachable(ms, root, name)
    ensures Distinct(Visit(ms, root, []))
  {
    var printed := Visit(ms, root, []);
    VisitFresh(ms, root, []);
    VisitClosed(ms, root, []);
    ReachableSelf(ms, root);
    VisitReachable(ms, root, root, []);
    if Reachable(ms, root, name) {
      var path :| Chain(ms, path) && path[0] == root && path[|path| - 1] == name;
      ClosedReaches(ms, printed, path, |path| - 1);
    }
  }

  // ---------- Signatures ----------

  function Texts(ps: seq<Property>): (r: seq<string>)
    ensures |r| == |ps|
  {
    if ps == [] then [] else Texts(ps[..|ps| - 1]) + [ps[|ps| - 1].text]
  }

  const STRONG := "<span class=\"strong\">"
  const STRONG_CLOSE := "</span>"

  /** One model by itself. */
  function Section(name: string, m: Model): string {
    STRONG + name + " {" + STRONG_CLOSE + "<div>" + Join(Texts(m.properties), ",</div><div>") + "</div>" + STRONG +
      "}" + STRONG_CLOSE
  }

  /** Every property of a model stands in its section, in order, between the brackets that carry the model's name. */
  lemma SectionHolds(name: string, m: Model, i: nat) returns (before: string, behind: string)
    requires i < |m.properties|
    ensures Section(name, m) == STRONG + name + " {" + STRONG_CLOSE + "<div>" +
            (before + m.properties[i].text + behind) +
                                "</div>" + STRONG + "}" + STRONG_CLOSE
    ensures before == if i == 0 then "" else Join(Texts(m.properties[..i]), ",</div><div>") + ",</div><div>"
    ensures behind == if i + 1 == |m.properties| then ""
                      else ",</div><div>" + Join(Texts(m.properties[i + 1..]), ",</div><div>")
  {
    hide Join, Texts;
    var ps := m.properties;
    var separator := ",</div><div>";
    TextsAre(ps);
    TextsAre(ps[..i]);
    TextsAre(ps[i + 1..]);
    JoinAt(Texts(ps), separator, i);
    assert Texts(ps)[..i] == Texts(ps[..i]) && Texts(ps)[i + 1..] == Texts(ps[i + 1..]);
    before := if i == 0 then "" else Join(Texts(ps[..i]), separator) + separator;
    behind := if i + 1 == |ps| then "" else separator + Join(Texts(ps[i + 1..]), separator);
  }

  lemma {:induction false} TextsAre(ps: seq<Property>)
    ensures forall i :: 0 <= i < |ps| ==> Texts(ps)[i] == ps[i].text
  {
    if ps != [] {
      TextsAre(ps[..|ps| - 1]);
    }
  }

  /** The sections of some models, each after a line break. */
  function Breaks(ms: Models, printed: seq<string>): string {
    if printed == [] then "" else
      "<br>" + (if printed[0] in ms then Section(printed[0], ms[printed[0]]) else "") + Breaks(ms, printed[1..])
  }

  lemma {:induction false} BreaksConcat(ms: Models, a: seq<string>, b: seq<string>)
    ensures Breaks(ms, a + b) == Breaks(ms, a) + Breaks(ms, b)
  {
    hide Section;
    if a == [] {
      assert a + b == b;
    } else {
      assert (a + b)[1..] == a[1..] + b;
      BreaksConcat(ms, a[1..], b);
      var first := "<br>" + if a[0] in ms then Section(a[0], ms[a[0]]) else "";
      assert first + (Breaks(ms, a[1..]) + Breaks(ms, b)) == first + Breaks(ms, a[1..]) + Breaks(ms, b);
    }
  }

  /** The array `modelsToIgnore`. */
  class IgnoreList {
    var names: seq<string>

    constructor ()
      ensures names == []
    {
      names := [];
    }
  }

  class Registry {
    const models: Models
    const presets: map<string, Json>

    constructor (models: Models, presets: map<string, Json>)
      ensures this.models == models && this.presets == presets
    {
      this.models, this.presets := models, presets;
    }

    /** The properties, printed between the class brackets. */
    method OwnSignature(name: string) returns (text: string)
      requires name in models
      ensures text == Section(name, models[name])
    {
      var properties := models[name].properties;
      var strings: seq<string> := [];
      for i := 0 to |properties|
        invariant strings == Texts(properties[..i])
      {
        assert properties[..i + 1][..i] == properties[..i];
        strings := strings + [properties[i].text];
      }
      assert properties[..|properties|] == properties;
      var classOpen := STRONG + name + " {" + STRONG_CLOSE;
      var classClose := STRONG + "}" + STRONG_CLOSE;
      text := classOpen + "<div>" + Join(strings, ",</div><div>") + "</div>" + classClose;
    }

    /** The text is the sections of the models in printing order, and the list has grown by them. */
    method GetMockSignature(name: string, modelsToIgnore: IgnoreList) returns (text: string)
      requires Linked(models) && name in models && name !in modelsToIgnore.names
      modifies modelsToIgnore
      ensures var printed := Visit(models, name, old(modelsToIgnore.names));
              "<br>" + text == Breaks(models, printed) && modelsToIgnore.names == old(modelsToIgnore.names) + printed
      decreases |Unseen(models, modelsToIgnore.names)|
    {
      hide Section, Linked, Breaks, VisitProperties, Visit, Unseen, LinkedProperties, Printing;
      ghost var start := modelsToIgnore.names;
      var properties := models[name].properties;
      text := OwnSignature(name);
      UnseenDrops(models, start, name);
      modelsToIgnore.names := modelsToIgnore.names + [name];
      ghost var done: seq<string> := [];
      PrintingStarts(models, name, start, text);
      for i := 0 to |properties|
        invariant modelsToIgnore.names == start + [name] + done
        invariant Printing(models, name, start, i, done, text)
      {
        var prop := properties[i];
        PrintedNext(models, name, start, i, done, text);
        if prop.ref.Some? && prop.ref.value !in modelsToIgnore.names {
          UnseenShrinks(models, start + [name], done);
          var inner := GetMockSignature(prop.ref.value, modelsToIgnore);
          ghost var printed := Visit(models, prop.ref.value, start + [name] + done);
          PrintedMore(models, name, start, i, done, text, printed, inner);
          text := text + ("<br>" + inner);
          done := done + printed;
        }
      }
      PrintingEnds(models, name, start, done, text);
    }

    /** The sample of a model; the list is as it was found. */
    method CreateJSONSample(name: string, modelsToIgnore: IgnoreList) returns (sample: Json)
      requires Linked(models) && name in models && name !in modelsToIgnore.names
      modifies modelsToIgnore
      ensures sample == Sample(models, presets, name, old(modelsToIgnore.names)) &&
              modelsToIgnore.names == old(modelsToIgnore.names)
      decreases |Unseen(models, modelsToIgnore.names)|, 1
    {
      if name in presets {
        return presets[name];
      }
      hide Linked;
      PropertiesOf(models, name);
      var properties := models[name].properties;
      ghost var before := modelsToIgnore.names;
      UnseenDrops(models, before, name);
      modelsToIgnore.names := modelsToIgnore.names + [name];
      var result: seq<Field> := [];
      ghost var all := Fields(models, presets, properties, before + [name]);
      assert properties[0..] == properties && [] + all == all;
      for i := 0 to |properties|
        invariant LinkedProperties(models, properties[i..]) && modelsToIgnore.names == before + [name]
        invariant all == result + Fields(models, presets, properties[i..], before + [name])
      {
        var prop := properties[i];
        assert properties[i..][1..] == properties[i + 1..] && properties[i..][0] == prop;
        var value := GetSampleValue(prop, modelsToIgnore);
        result := result + [Field(prop.name, value)];
      }
      assert result + [] == result;
      modelsToIgnore.names := modelsToIgnore.names[..|modelsToIgnore.names| - 1];
      assert modelsToIgnore.names == before;
      sample := Expansion(name, result);
    }

    method GetSampleValue(prop: Property, modelsToIgnore: IgnoreList) returns (value: Json)
      requires Linked(models) && (prop.ref.Some? ==> prop.ref.value in models)
      modifies modelsToIgnore
      ensures value == SampleValue(models, presets, prop, old(modelsToIgnore.names)) &&
              modelsToIgnore.names == old(modelsToIgnore.names)
      decreases |Unseen(models, modelsToIgnore.names)|, 2
    {
      hide Linked;
      if prop.ref.Some? && prop.ref.value !in modelsToIgnore.names {
        value := CreateJSONSample(prop.ref.value, modelsToIgnore);
      } else {
        value := Plain(prop.sample);
      }
      if prop.isCollection {
        value := List([value]);
      }
    }
  }

  lemma PropertiesOf(ms: Models, name: string)
    requires Linked(ms) && name in ms
    ensures LinkedProperties(ms, ms[name].properties)
  {
  }

  lemma SectionOf(ms: Models, name: string, text: string)
    requires name in ms && text == Section(name, ms[name])
    ensures "<br>" + text == Breaks(ms, [name] + [])
  {
    assert [name] + [] == [name] && [name][1..] == [];
    assert Breaks(ms, [name][1..]) == "";
    assert "<br>" + text + "" == "<br>" + text;
  }

  lemma SectionsAdded(ms: Models, printed: seq<string>, more: seq<string>, text: string, inner: string)
    requires "<br>" + text == Breaks(ms, printed) && "<br>" + inner == Breaks(ms, more)
    ensures "<br>" + (text + ("<br>" + inner)) == Breaks(ms, printed + more)
  {
    hide Breaks;
    BreaksConcat(ms, printed, more);
    assert "<br>" + (text + ("<br>" + inner)) == "<br>" + text + ("<br>" + inner);
  }

  /** After i properties of a model: what has been printed besides the model, and what is still to be printed. */
  ghost predicate Printing(ms: Models, name: string, start: seq<string>, i: nat, done: seq<string>, text: string)
    requires Linked(ms) && name in ms && name !in start
  {
    PropertiesOf(ms, name);
    var ps := ms[name].properties;
    i <= |ps| && LinkedProperties(ms, ps[i..]) && "<br>" + text == Breaks(ms, [name] + done) &&
    VisitProperties(ms, ps, start + [name]) == done + VisitProperties(ms, ps[i..], start + [name] + done)
  }

  lemma PrintingStarts(ms: Models, name: string, start: seq<string>, text: string)
    requires Linked(ms) && name in ms && name !in start && text == Section(name, ms[name])
    ensures Printing(ms, name, start, 0, [], text) && start + [name] == start + [name] + []
  {
    hide VisitProperties, Section;
    PropertiesOf(ms, name);
    SectionOf(ms, name, text);
    assert ms[name].properties[0..] == ms[name].properties && start + [name] + [] == start + [name];
  }

  lemma TailLinked(ms: Models, ps: seq<Property>, i: nat)
    requires i < |ps| && LinkedProperties(ms, ps[i..])
    ensures LinkedProperties(ms, ps[i + 1..]) && (ps[i].ref.Some? ==> ps[i].ref.value in ms)
    ensures ps[i..][1..] == ps[i + 1..] && ps[i..][0] == ps[i]
  {
    var tail := ps[i + 1..];
    forall k | 0 <= k < |tail|
      ensures tail[k].ref.Some? ==> tail[k].ref.value in ms
    {
      assert tail[k] == ps[i..][k + 1];
    }
    assert ps[i..][0] == ps[i];
  }

  /** One property of the loop: its model is there, and is skipped when it is on the list. */
  lemma PrintedNext(ms: Models, name: string, start: seq<string>, i: nat, done: seq<string>, text: string)
    requires Linked(ms) && name in ms && name !in start && Printing(ms, name, start, i, done, text) &&
             i < |ms[name].properties|
    ensures var ref := ms[name].properties[i].ref;
            (ref.Some? ==> ref.value in ms) &&
            (ref.None? || ref.value in start + [name] + done ==> Printing(ms, name, start, i + 1, done, text))
  {
    hide Visit, Linked, LinkedProperties, Breaks;
    TailLinked(ms, ms[name].properties, i);
  }

  lemma PrintedMore(ms: Models, name: string, start: seq<string>, i: nat, done: seq<string>, text: string,
                    printed: seq<string>, inner: string)
    requires Linked(ms) && name in ms && name !in start && Printing(ms, name, start, i, done, text) &&
             i < |ms[name].properties|
    requires var ref := ms[name].properties[i].ref;
             ref.Some? && ref.value in ms && ref.value !in start + [name] + done &&
               printed == Visit(ms, ref.value, start + [name] + done)
    requires "<br>" + inner == Breaks(ms, printed)
    ensures Printing(ms, name, start, i + 1, done + printed, text + ("<br>" + inner))
    ensures start + [name] + done + printed == start + [name] + (done + printed)
  {
    hide Visit, Linked, LinkedProperties, Breaks;
    var ps := ms[name].properties;
    TailLinked(ms, ps, i);
    var rest := VisitProperties(ms, ps[i + 1..], start + [name] + done + printed);
    assert start + [name] + done + printed == start + [name] + (done + printed);
    assert done + (printed + rest) == done + printed + rest;
    SectionsAdded(ms, [name] + done, printed, text, inner);
    assert [name] + done + printed == [name] + (done + printed);
  }

  lemma PrintingEnds(ms: Models, name: string, start: seq<string>, done: seq<string>, text: string)
    requires Linked(ms) && name in ms && name !in start && Printing(ms, name, start, |ms[name].properties|, done, text)
    ensures var printed := Visit(ms, name, start);
            "<br>" + text == Breaks(ms, printed) && start + [name] + done == start + printed
  {
    hide Linked, Breaks;
    var ps := ms[name].properties;
    assert ps[|ps|..] == [] && done + [] == done;
    assert start + [name] + done == start + ([name] + done);
  }

  // ---------- Samples ----------

  function Sample(ms: Models, presets: map<string, Json>, name: string, ignore: seq<string>): Json
    requires Linked(ms) && name in ms && name !in ignore
    decreases |Unseen(ms, ignore)|, 0, 0
  {
    if name in presets then presets[name] else
      UnseenDrops(ms, ignore, name);
      Expansion(name, Fields(ms, presets, ms[name].properties, ignore + [name]))
  }

  /** Every property with its own value. */
  function Fields(ms: Models, presets: map<string, Json>, ps: seq<Property>, ignore: seq<string>): (r: seq<Field>)
    requires Linked(ms) && LinkedProperties(ms, ps)
    ensures |r| == |ps|
    decreases |Unseen(ms, ignore)|, 2, |ps|
  {
    if ps == [] then []
    else [Field(ps[0].name, SampleValue(ms, presets, ps[0], ignore))] + Fields(ms, presets, ps[1..], ignore)
  }

  function SampleValue(ms: Models, presets: map<string, Json>, p: Property, ignore: seq<string>): Json
    requires Linked(ms) && (p.ref.Some? ==> p.ref.value in ms)
    decreases |Unseen(ms, ignore)|, 1, 0
  {
    var value := if p.ref.Some? && p.ref.value !in ignore then Sample(ms, presets, p.ref.value, ignore)
      else Plain(p.sample);
    if p.isCollection then List([value]) else value
  }

  /** j is a sample of the model: its preset, or every property with a value that fits it. */
  predicate IsSample(ms: Models, presets: map<string, Json>, name: string, outer: set<string>, j: Json)
    decreases j, 0
  {
    name in ms &&
    if name in presets then j == presets[name]
    else
      && j.Expansion? && j.model == name && |j.fields| == |ms[name].properties|
      && forall i :: 0 <= i < |j.fields| ==>
           var p := ms[name].properties[i];
           j.fields[i].name == p.name && IsValue(ms, presets, p, outer + {name}, j.fields[i].value)
  }

  /** A reference is expanded exactly when its model is not being expanded around it; a collection is a list of one. */
  predicate IsValue(ms: Models, presets: map<string, Json>, p: Property, outer: set<string>, j: Json)
    decreases j, 2
  {
    if p.isCollection then j.List? && |j.items| == 1 && IsSingle(ms, presets, p, outer, j.items[0])
    else IsSingle(ms, presets, p, outer, j)
  }

  predicate IsSingle(ms: Models, presets: map<string, Json>, p: Property, outer: set<string>, j: Json)
    decreases j, 1
  {
    match p.ref
    case None => j == Plain(p.sample)
    case Some(name) => if name in outer then j == Plain(p.sample) else IsSample(ms, presets, name, outer, j)
  }

  /** The sample made of a model is one, and the only one. */
  lemma {:induction false} SampleIs(ms: Models, presets: map<string, Json>, name: string, ignore: seq<string>)
    requires Linked(ms) && name in ms && name !in ignore
    ensures IsSample(ms, presets, name, Names(ignore), Sample(ms, presets, name, ignore))
    decreases |Unseen(ms, ignore)|, 0, 0
  {
    hide Linked;
    if name !in presets {
      UnseenDrops(ms, ignore, name);
      PropertiesOf(ms, name);
      FieldsAre(ms, presets, ms[name].properties, ignore + [name]);
      assert Names(ignore + [name]) == Names(ignore) + {name};
    }
  }

  lemma {:induction false} FieldsAre(ms: Models, presets: map<string, Json>, ps: seq<Property>, ignore: seq<string>)
    requires Linked(ms) && LinkedProperties(ms, ps)
    ensures var fields := Fields(ms, presets, ps, ignore);
      forall i :: 0 <= i < |ps| ==>
        fields[i].name == ps[i].name && IsValue(ms, presets, ps[i], Names(ignore), fields[i].value)
    decreases |Unseen(ms, ignore)|, 2, |ps|
  {
    hide Linked, IsValue, Names;
    if ps != [] {
      ValueIs(ms, presets, ps[0], ignore);
      FieldsAre(ms, presets, ps[1..], ignore);
      var fields, rest := Fields(ms, presets, ps, ignore), Fields(ms, presets, ps[1..], ignore);
      assert forall i :: 0 < i < |ps| ==> fields[i] == rest[i - 1] && ps[i] == ps[1..][i - 1];
    }
  }

  lemma {:induction false} ValueIs(ms: Models, presets: map<string, Json>, p: Property, ignore: seq<string>)
    requires Linked(ms) && (p.ref.Some? ==> p.ref.value in ms)
    ensures IsValue(ms, presets, p, Names(ignore), SampleValue(ms, presets, p, ignore))
    decreases |Unseen(ms, ignore)|, 1, 0
  {
    hide Linked, IsSample;
    if p.ref.Some? && p.ref.value !in ignore {
      SampleIs(ms, presets, p.ref.value, ignore);
    }
  }

  lemma {:induction false} SampleUnique(ms: Models, presets: map<string, Json>, name: string, outer: set<string>,
                                        j: Json, k: Json)
    requires IsSample(ms, presets, name, outer, j) && IsSample(ms, presets, name, outer, k)
    ensures j == k
    decreases j, 0
  {
    if name !in presets {
      forall i | 0 <= i < |j.fields|
        ensures j.fields[i] == k.fields[i]
      {
        ValueUnique(ms, presets, ms[name].properties[i], outer + {name}, j.fields[i].value, k.fields[i].value);
      }
      assert j.fields == k.fields;
    }
  }

  lemma {:induction false} ValueUnique(ms: Models, presets: map<string, Json>, p: Property, outer: set<string>,
                                       j: Json, k: Json)
    requires IsValue(ms, presets, p, outer, j) && IsValue(ms, presets, p, outer, k)
    ensures j == k
    decreases j, 2
  {
    hide IsSample;
    var x, y := if p.isCollection then j.items[0] else j, if p.isCollection then k.items[0] else k;
    if p.ref.Some? && p.ref.value !in outer {
      SampleUnique(ms, presets, p.ref.value, outer, x, y);
    }
    if p.isCollection {
      assert j.items == [x] && k.items == [y];
    }
  }

  /** No model is expanded inside an expansion of itself. */
  predicate NoNesting(j: Json, outer: set<string>)
    decreases j
  {
    match j
    case Expansion(model, fields) => model !in outer && NoNestingFields(fields, outer + {model})
    case List(items) => NoNestingItems(items, outer)
    case _ => true
  }

  predicate NoNestingFields(fields: seq<Field>, outer: set<string>)
    decreases fields
  {
    fields == [] || (NoNesting(fields[0].value, outer) && NoNestingFields(fields[1..], outer))
  }

  predicate NoNestingItems(items: seq<Json>, outer: set<string>)
    decreases items
  {
    items == [] || (NoNesting(items[0], outer) && NoNestingItems(items[1..], outer))
  }

  predicate PresetsOpaque(presets: map<string, Json>) { forall n :: n in presets ==> presets[n].Preset? }

  lemma {:induction false} SampleNeverNests(ms: Models, presets: map<string, Json>, name: string, ignore: seq<string>)
    requires Linked(ms) && name in ms && name !in ignore && PresetsOpaque(presets)
    ensures NoNesting(Sample(ms, presets, name, ignore), Names(ignore))
    decreases |Unseen(ms, ignore)|, 0, 0
  {
    if name !in presets {
      UnseenDrops(ms, ignore, name);
      FieldsNeverNest(ms, presets, ms[name].properties, ignore + [name]);
      assert Names(ignore + [name]) == Names(ignore) + {name};
    }
  }

  lemma {:induction false} FieldsNeverNest(ms: Models, presets: map<string, Json>, ps: seq<Property>,
                                           ignore: seq<string>)
    requires Linked(ms) && LinkedProperties(ms, ps) && PresetsOpaque(presets)
    ensures NoNestingFields(Fields(ms, presets, ps, ignore), Names(ignore))
    decreases |Unseen(ms, ignore)|, 2, |ps|
  {
    hide Linked;
    if ps != [] {
      ValueNeverNests(ms, presets, ps[0], ignore);
      FieldsNeverNest(ms, presets, ps[1..], ignore);
    }
  }

  lemma {:induction false} ValueNeverNests(ms: Models, presets: map<string, Json>, p: Property, ignore: seq<string>)
    requires Linked(ms) && (p.ref.Some? ==> p.ref.value in ms) && PresetsOpaque(presets)
    ensures NoNesting(SampleValue(ms, presets, p, ignore), Names(ignore))
    decreases |Unseen(ms, ignore)|, 1, 0
  {
    hide Linked;
    var value := if p.ref.Some? && p.ref.value !in ignore then Sample(ms, presets, p.ref.value, ignore)
      else Plain(p.sample);
    if p.ref.Some? && p.ref.value !in ignore {
      SampleNeverNests(ms, presets, p.ref.value, ignore);
    }
    OneItem(value, Names(ignore));
  }

  lemma OneItem(value: Json, outer: set<string>)
    ensures NoNestingItems([value], outer) <==> NoNesting(value, outer)
  {
    hide NoNesting;
    assert [value][1..] == [] && NoNestingItems([value][1..], outer);
  }
}
