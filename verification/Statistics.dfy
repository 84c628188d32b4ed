/** The statistics counter: totals accumulated in a mutable object over an
    expanded specification, and the same totals read off the reference graph. */
module StatisticsPage {
  import opened Wrappers
  import opened SpecExpansion
  import opened SpecExpander

  datatype Totals = Totals(components: nat, elements: nat, links: nat) {
    function Plus(t: Totals): Totals {
      Totals(components + t.components, elements + t.elements, links + t.links)
    }
  }

  function Links(es: seq<Element>): nat {
    if es == [] then 0 else Links(es[..|es| - 1]) + (if es[|es| - 1].conceptLink.Some? then 1 else 0)
  }

  /** One component, without its children. */
  function Own(c: Component): Totals {
    Totals(1, |c.elements|, Links(c.elements))
  }

  /** The totals of a list of component trees. */
  function Counted(cs: seq<Component>): Totals
    decreases cs
  {
    if cs == [] then Totals(0, 0, 0)
    else Own(cs[0]).Plus(Counted(cs[0].children)).Plus(Counted(cs[1..]))
  }

  /** The totals of the expansion of a list, by recursion on unexpanded
      specifications: nothing is built and no cardinality is looked at. */
  function CountedByReference(reg: Registry, cs: seq<Component>, path: set<string>): Totals
    decreases |reg.Keys - path|, cs
  {
    if cs == [] then Totals(0, 0, 0) else
      var c := cs[0];
      var first := if c.ref.None? then
                     Own(c).Plus(CountedByReference(reg, c.children, path))
                   else if c.ref.value in path || c.ref.value !in reg then
                     Own(c).Plus(Counted(c.children))
                   else (
                     PathGrows(reg, path, c.ref.value);
                     Own(reg[c.ref.value]).Plus(
                       CountedByReference(reg, reg[c.ref.value].children, path + {c.ref.value})));
      first.Plus(CountedByReference(reg, cs[1..], path))
  }

  lemma {:induction false} ExpansionCounted(reg: Registry, cs: seq<Component>, path: set<string>)
    ensures var r := ExpandAll(reg, cs, path);
            r.Expanded? ==> Counted(r.value) == CountedByReference(reg, cs, path)
    decreases |reg.Keys - path|, cs
  {
    if cs != [] {
      var c := cs[0];
      match c.ref {
        case None =>
          ExpansionCounted(reg, c.children, path);
        case Some(id) =>
          if id !in path && id in reg {
            PathGrows(reg, path, id);
            ExpansionCounted(reg, reg[id].children, path + {id});
          }
      }
      ExpansionCounted(reg, cs[1..], path);
      var r := ExpandAll(reg, cs, path);
      if r.Expanded? {
        assert r.value[1..] == ExpandAll(reg, cs[1..], path).value;
      }
    }
  }

  // ---------- What the totals count ----------

  /** Every component of the trees, each before its children. */
  function Everything(cs: seq<Component>): seq<Component>
    decreases cs
  {
    if cs == [] then [] else [cs[0]] + Everything(cs[0].children) + Everything(cs[1..])
  }

  function ElementsOf(cs: seq<Component>): seq<Element> {
    if cs == [] then [] else cs[0].elements + ElementsOf(cs[1..])
  }

  /** The places of the elements that have a concept link. */
  function Linked(es: seq<Element>): set<int> { set i | 0 <= i < |es| && es[i].conceptLink != None }

  lemma {:induction false} LinksAre(es: seq<Element>)
    ensures Links(es) == |Linked(es)|
  {
    if es != [] {
      var n := |es| - 1;
      LinksAre(es[..n]);
      assert Linked(es) == Linked(es[..n]) + if es[n].conceptLink != None then {n} else {};
    } else {
      assert Linked(es) == {};
    }
  }

  lemma {:induction false} LinksConcat(a: seq<Element>, b: seq<Element>)
    ensures Links(a + b) == Links(a) + Links(b)
    decreases |b|
  {
    if b == [] {
      assert a + b == a;
    } else {
      var n := |b| - 1;
      LinksConcat(a, b[..n]);
      assert (a + b)[..|a + b| - 1] == a + b[..n];
    }
  }

  lemma {:induction false} ElementsConcat(a: seq<Component>, b: seq<Component>)
    ensures ElementsOf(a + b) == ElementsOf(a) + ElementsOf(b)
  {
    if a == [] {
      assert a + b == b;
    } else {
      assert (a + b)[1..] == a[1..] + b;
      ElementsConcat(a[1..], b);
    }
  }

  /** The totals are the number of components, the number of their elements, and how many of these have a concept
      link. */
  lemma {:induction false} CountedIs(cs: seq<Component>)
    ensures var all := Everything(cs);
            Counted(cs) == Totals(|all|, |ElementsOf(all)|, |Linked(ElementsOf(all))|)
    decreases cs
  {
    hide Linked, Links;
    var all := Everything(cs);
    LinksAre(ElementsOf(all));
    if cs == [] {
      NoLinks();
    } else {
      var inner, rest := Everything(cs[0].children), Everything(cs[1..]);
      CountedIs(cs[0].children);
      CountedIs(cs[1..]);
      LinksAre(ElementsOf(inner));
      LinksAre(ElementsOf(rest));
      ElementsConcat([cs[0]] + inner, rest);
      ElementsConcat([cs[0]], inner);
      assert [cs[0]][1..] == [] && ElementsOf([cs[0]]) == cs[0].elements + [];
      LinksConcat(cs[0].elements + ElementsOf(inner), ElementsOf(rest));
      LinksConcat(cs[0].elements, ElementsOf(inner));
    }
  }

  lemma NoLinks()
    ensures Links([]) == 0 && Linked([]) == {}
  {
  }

  class Statistics {
    var componentnumber: nat
    var elementcounter: nat
    var conceptlinkcounter: nat

    constructor ()
      ensures Current() == Totals(0, 0, 0)
    {
      componentnumber, elementcounter, conceptlinkcounter := 0, 0, 0;
    }

    function Current(): Totals
      reads this
    {
      Totals(componentnumber, elementcounter, conceptlinkcounter)
    }
  }

  /** Adds the totals of every component of the list to stats. */
  method ComponentCounter(components: ComponentList, stats: Statistics)
    requires components.Valid() && stats !in components.Repr
    modifies stats
    ensures stats.Current() == old(stats.Current()).Plus(Counted(components.view))
    decreases components.view
  {
    hide Counted, Links;
    ghost var start := stats.Current();
    CountedNone();
    for i := 0 to |components.items|
      invariant stats.Current() == start.Plus(Counted(components.view[..i]))
    {
      var component := components.items[i];
      stats.componentnumber := stats.componentnumber + 1;
      ElementCounter(component.elements, stats);
      ComponentCounter(component.component, stats);
      CountedSnoc(components.view, i);
    }
    assert components.view[..|components.view|] == components.view;
  }

  /** The elements of one component and their concept links. */
  method ElementCounter(elementlist: seq<Element>, stats: Statistics)
    modifies stats
    ensures stats.Current() == old(stats.Current()).Plus(Totals(0, |elementlist|, Links(elementlist)))
  {
    stats.elementcounter := stats.elementcounter + |elementlist|;
    for k := 0 to |elementlist|
      invariant stats.Current() == old(stats.Current()).Plus(Totals(0, |elementlist|, Links(elementlist[..k])))
    {
      if elementlist[k].conceptLink.Some? {
        stats.conceptlinkcounter := stats.conceptlinkcounter + 1;
      }
      assert elementlist[..k + 1][..k] == elementlist[..k];
    }
    assert elementlist[..|elementlist|] == elementlist;
  }

  lemma CountedNone()
    ensures Counted([]) == Totals(0, 0, 0)
  {
  }

  lemma CountedCons(c: Component, cs: seq<Component>)
    ensures Counted([c] + cs) == Own(c).Plus(Counted(c.children)).Plus(Counted(cs))
    ensures Counted([]) == Totals(0, 0, 0)
  {
    assert ([c] + cs)[1..] == cs;
  }

  lemma {:induction false} CountedSnoc(cs: seq<Component>, i: nat)
    requires i < |cs|
    ensures Counted(cs[..i + 1]) == Counted(cs[..i]).Plus(Own(cs[i])).Plus(Counted(cs[i].children))
    decreases i
  {
    hide Counted, Own;
    if i == 0 {
      CountedCons(cs[0], []);
      assert cs[..1] == [cs[0]] + [] && cs[..0] == [];
    } else {
      var tail := cs[1..];
      CountedSnoc(tail, i - 1);
      CountedCons(cs[0], tail[..i]);
      CountedCons(cs[0], tail[..i - 1]);
      assert cs[..i + 1] == [cs[0]] + tail[..i] && cs[..i] == [cs[0]] + tail[..i - 1] && tail[i - 1] == cs[i];
    }
  }

  lemma SameOwn(c: Component, d: Component)
    requires d == c.(children := d.children)
    ensures Own(c) == Own(d)
  {
  }

  /** The counter on the singleton of a root component. */
  method CountSpecification(root: ComponentType, stats: Statistics)
    requires root.Valid() && stats !in root.Repr
    modifies stats
    ensures stats.Current() == old(stats.Current()).Plus(Own(root.view)).Plus(Counted(root.view.children))
  {
    hide Counted, Own;
    var single := new ComponentList();
    single.Add(root);
    assert single.view == [root.view] + [];
    CountedCons(root.view, []);
    ComponentCounter(single, stats);
  }

  /** Statistics of a component: expanded from the registry, then counted. */
  method DisplayComponentStatistics(expander: Expander, id: string) returns (r: Option<Expansion<Totals>>)
    ensures r.None? <==> id !in expander.registry
    ensures id in expander.registry && r.value.Expanded? ==>
              r.value.value == Own(expander.registry[id]).Plus(
                CountedByReference(expander.registry, expander.registry[id].children, {id}))
  {
    hide Counted, CountedByReference, ExpandAll, Own;
    var e := expander.ExpandComponent(id);
    match e {
      case None =>
        r := None;
      case Some(Recursion(p, x)) =>
        r := Some(Recursion(p, x));
      case Some(Expanded(root)) =>
        var stats := new Statistics();
        CountSpecification(root, stats);
        SameOwn(expander.registry[id], root.view);
        ExpansionCounted(expander.registry, expander.registry[id].children, {id});
        r := Some(Expanded(stats.Current()));
    }
  }
}
