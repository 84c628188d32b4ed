/** The expander on shared, mutable component nodes: lists are rewritten in
    place, fetched specifications are fresh objects, and attributes are
    overwritten by setters. */
module SpecExpander {
  import opened Wrappers
  import opened SpecExpansion

  class ComponentList {
    var items: seq<ComponentType>
    ghost var view: seq<Component>
    ghost var Repr: set<object>

    ghost predicate Valid()
      reads this, Repr
      decreases Repr
    {
      && this in Repr
      && |view| == |items|
      && (forall i :: 0 <= i < |items| ==>
            && items[i] in Repr && items[i].Repr < Repr && this !in items[i].Repr
            && items[i].Valid() && items[i].view == view[i])
      && forall i, j :: 0 <= i < j < |items| ==> items[i].Repr !! items[j].Repr
    }

    constructor ()
      ensures Valid() && fresh(Repr) && items == [] && view == []
    {
      items, view := [], [];
      Repr := {this};
    }

    /** `List.add` of a component that shares nothing with the list. */
    method Add(c: ComponentType)
      requires Valid() && c.Valid() && c.Repr !! Repr
      modifies this
      ensures Valid() && Repr == old(Repr) + c.Repr
      ensures view == old(view) + [c.view]
    {
      items, view := items + [c], view + [c.view];
      Repr := Repr + c.Repr;
    }

    /** `clear` and `addAll`. */
    method Become(other: ComponentList)
      requires other.Valid() && this !in other.Repr
      modifies this
      ensures Valid() && Repr == {this} + other.Repr && items == other.items && view == other.view
    {
      items, view, Repr := other.items, other.view, {this} + other.Repr;
    }
  }

  class ComponentType {
    const name: string
    const elements: seq<Element>
    const component: ComponentList
    var componentRef: Option<string>
    var cardinalityMin: seq<string>
    var cardinalityMax: seq<string>
    ghost var view: Component
    ghost var Repr: set<object>

    ghost predicate Valid()
      reads this, Repr
      decreases Repr
    {
      && this in Repr
      && component in Repr && component.Repr < Repr && this !in component.Repr
      && component.Valid()
      && view == Component(name, componentRef, cardinalityMin, cardinalityMax, elements, component.view)
    }

    constructor (c: Component, children: ComponentList)
      requires children.Valid() && children.view == c.children
      ensures Valid() && view == c && Repr == {this} + children.Repr
    {
      name, elements, component := c.name, c.elements, children;
      componentRef, cardinalityMin, cardinalityMax := c.ref, c.cardMin, c.cardMax;
      view := c;
      Repr := {this} + children.Repr;
    }
  }

  /** An uncached fetch: fresh objects holding the stored specification. */
  method Fetch(c: Component) returns (n: ComponentType)
    ensures n.Valid() && fresh(n.Repr) && n.view == c
    decreases c
  {
    var children := new ComponentList();
    for i := 0 to |c.children|
      invariant children.Valid() && fresh(children.Repr) && children.view == c.children[..i]
    {
      var child := Fetch(c.children[i]);
      children.Add(child);
    }
    assert children.view == c.children;
    n := new ComponentType(c, children);
  }

  class ComponentSpec {
    var component: ComponentType

    constructor (root: ComponentType)
      ensures component == root
    {
      component := root;
    }
  }

  class Expander {
    const registry: Registry

    constructor (reg: Registry)
      ensures registry == reg
    {
      registry := reg;
    }

    /** Copies the cardinalities of the reference over those of the fetched component, and its id. */
    method OverwriteAttributes(reference: ComponentType, nested: ComponentType)
      requires reference.Valid() && nested.Valid() && reference !in nested.Repr
      modifies nested
      ensures nested.Valid() && nested.Repr == old(nested.Repr)
      ensures nested.view == Overwritten(reference.view, old(nested.view))
      ensures reference.cardinalityMax != [] ==> nested.cardinalityMax == reference.cardinalityMax
      ensures reference.cardinalityMax == [] ==> nested.cardinalityMax == old(nested.cardinalityMax)
      ensures reference.cardinalityMin != [] ==> nested.cardinalityMin == reference.cardinalityMin
      ensures reference.cardinalityMin == [] ==> nested.cardinalityMin == old(nested.cardinalityMin)
      ensures nested.componentRef == reference.componentRef
    {
      if reference.cardinalityMax != [] {
        nested.cardinalityMax := reference.cardinalityMax;
      }
      if reference.cardinalityMin != [] {
        nested.cardinalityMin := reference.cardinalityMin;
      }
      nested.componentRef := reference.componentRef;
      nested.view := Overwritten(reference.view, nested.view);
    }

    /** Rewrites the list in place to its expansion, or reports the recursion and leaves the list with its nodes. */
    method ExpandNestedComponent(cmdComponents: ComponentList, path: set<string>) returns (r: Expansion<()>)
      requires cmdComponents.Valid()
      modifies cmdComponents.Repr
      ensures match ExpandAll(registry, old(cmdComponents.view), path)
              case Recursion(p, id) => r == Recursion(p, id) && cmdComponents.items == old(cmdComponents.items)
              case Expanded(cs) =>
                && r == Expanded(())
                && cmdComponents.Valid() && fresh(cmdComponents.Repr - old(cmdComponents.Repr))
                && cmdComponents.view == cs
      decreases |registry.Keys - path|, cmdComponents.view, 0
    {
      hide ExpandAll, ExpandOne;
      ghost var views := cmdComponents.view;
      ExpandNone(registry, path);
      var items := cmdComponents.items;
      var expanded := new ComponentList();
      for i := 0 to |items|
        invariant cmdComponents.items == items && cmdComponents.view == views &&
                  cmdComponents.Repr == old(cmdComponents.Repr)
        invariant forall k :: i <= k < |items| ==>
                    && items[k] in cmdComponents.Repr && items[k].Repr < cmdComponents.Repr
                    && cmdComponents !in items[k].Repr && items[k].Valid() && items[k].view == views[k]
                    && items[k].Repr !! expanded.Repr
        invariant forall j, k :: i <= j < k < |items| ==> items[j].Repr !! items[k].Repr
        invariant expanded.Valid() && fresh(expanded.Repr - cmdComponents.Repr) && cmdComponents !in expanded.Repr
        invariant ExpandAll(registry, views[..i], path) == Expanded(expanded.view)
        invariant fresh(expanded)
      {
        var e := AddExpansion(expanded, items[i], path);
        ExpandSnoc(registry, views, i, path);
        if e.Recursion? {
          return e;
        }
      }
      assert views[..|views|] == views;
      cmdComponents.Become(expanded);
      r := Expanded(());
    }

    /** An unknown id is a null dereference in the source, reported here as None. */
    method ExpandComponent(componentId: string) returns (r: Option<Expansion<ComponentType>>)
      ensures r.None? <==> componentId !in registry
      ensures componentId in registry ==>
                match ExpandAll(registry, registry[componentId].children, {componentId})
                case Recursion(p, id) => r.value == Recursion(p, id)
                case Expanded(cs) =>
                  && r.value.Expanded? && r.value.value.Valid() && fresh(r.value.value.Repr)
                  && r.value.value.view == registry[componentId].(children := cs)
    {
      hide ExpandAll;
      if componentId !in registry {
        return None;
      }
      var root := Fetch(registry[componentId]);
      var e := ExpandNestedComponent(root.component, {componentId});
      if e.Recursion? {
        return Some(Recursion(e.path, e.id));
      }
      root.view := root.view.(children := root.component.view);
      root.Repr := {root} + root.component.Repr;
      r := Some(Expanded(root));
    }

    /** Expands the root of a profile through a temporary one-element list. */
    method ExpandProfileSpec(profileSpec: ComponentSpec, profileId: string) returns (r: Expansion<()>)
      requires profileSpec.component.Valid() && profileSpec !in profileSpec.component.Repr
      modifies profileSpec, profileSpec.component.Repr
      ensures match ExpandOne(registry, old(profileSpec.component.view), {profileId})
              case Recursion(p, id) => r == Recursion(p, id)
              case Expanded(v) =>
                r == Expanded(()) && profileSpec.component.Valid() && profileSpec.component.view == v
    {
      hide ExpandAll, ExpandOne;
      var rootComponentList := new ComponentList();
      rootComponentList.Add(profileSpec.component);
      ghost var root := profileSpec.component.view;
      assert rootComponentList.view == [root];
      ExpandSingle(registry, root, {profileId});
      r := ExpandNestedComponent(rootComponentList, {profileId});
      if r.Expanded? {
        assert rootComponentList.view[0] == rootComponentList.items[0].view;
        profileSpec.component := rootComponentList.items[0];
      }
    }

    /** One turn of the loop: adds the node that replaces c. */
    method AddExpansion(expanded: ComponentList, c: ComponentType, path: set<string>) returns (r: Expansion<()>)
      requires expanded.Valid() && c.Valid() && expanded.Repr !! c.Repr
      modifies expanded, c.Repr
      ensures match ExpandOne(registry, old(c.view), path)
              case Recursion(p, id) => r == Recursion(p, id)
              case Expanded(v) =>
                && r == Expanded(())
                && expanded.Valid() && fresh(expanded.Repr - old(expanded.Repr) - old(c.Repr))
                && expanded.view == old(expanded.view) + [v]
      decreases |registry.Keys - path|, c.view, 1
    {
      hide ExpandOne;
      var item := ExpandItem(c, path);
      match item {
        case Recursion(p, id) =>
          r := Recursion(p, id);
        case Expanded(n) =>
          expanded.Add(n);
          r := Expanded(());
      }
    }

    /** The referenced component, fetched and with its own references expanded. */
    method FetchExpanded(id: string, path: set<string>) returns (r: Expansion<ComponentType>)
      requires id in registry && id !in path
      ensures match ExpandAll(registry, registry[id].children, path + {id})
              case Recursion(p, x) => r == Recursion(p, x)
              case Expanded(cs) =>
                && r.Expanded? && r.value.Valid() && fresh(r.value.Repr)
                && r.value.view == registry[id].(children := cs)
      decreases |registry.Keys - (path + {id})|
    {
      hide ExpandAll;
      var nested := Fetch(registry[id]);
      var e := ExpandNestedComponent(nested.component, path + {id});
      if e.Recursion? {
        return Recursion(e.path, e.id);
      }
      nested.view := nested.view.(children := nested.component.view);
      nested.Repr := {nested} + nested.component.Repr;
      r := Expanded(nested);
    }

    /** The node that replaces c, sharing only the objects of c. */
    method ExpandItem(c: ComponentType, path: set<string>) returns (r: Expansion<ComponentType>)
      requires c.Valid()
      modifies c.Repr
      ensures match ExpandOne(registry, old(c.view), path)
              case Recursion(p, id) => r == Recursion(p, id)
              case Expanded(v) =>
                && r.Expanded? && r.value.Valid() && fresh(r.value.Repr - old(c.Repr))
                && r.value.view == v
      decreases |registry.Keys - path|, c.view, 0
    {
      match c.componentRef {
        case Some(id) =>
          if id in path {
            return Recursion(path, id);
          }
          if id in registry {
            PathGrows(registry, path, id);
            r := FetchExpanded(id, path);
            if r.Expanded? {
              OverwriteAttributes(c, r.value);
            }
          } else {
            r := Expanded(c);
          }
        case None =>
          var e := ExpandNestedComponent(c.component, path);
          if e.Recursion? {
            return Recursion(e.path, e.id);
          }
          c.view := c.view.(children := c.component.view);
          c.Repr := {c} + c.component.Repr;
          r := Expanded(c);
      }
    }
  }

  /** A one-element list expands to the expansion of its element. */
  lemma ExpandSingle(reg: Registry, c: Component, path: set<string>)
    ensures match ExpandOne(reg, c, path)
            case Recursion(p, id) => ExpandAll(reg, [c], path) == Recursion(p, id)
            case Expanded(v) => ExpandAll(reg, [c], path) == Expanded([v])
  {
    ExpandNone(reg, path);
    assert [c][1..] == [];
    var one := ExpandOne(reg, c, path);
    assert one.Expanded? ==> [one.value] + [] == [one.value];
  }

  lemma ExpandNone(reg: Registry, path: set<string>)
    ensures ExpandAll(reg, [], path) == Expanded([])
  {
  }

  /** Expansion processes a list left to right and stops at the first recursion. */
  lemma {:induction false} ExpandSnoc(reg: Registry, cs: seq<Component>, i: nat, path: set<string>)
    requires i < |cs| && ExpandAll(reg, cs[..i], path).Expanded?
    ensures var one := ExpandOne(reg, cs[i], path);
            if one.Recursion? then ExpandAll(reg, cs, path) == Recursion(one.path, one.id)
            else ExpandAll(reg, cs[..i + 1], path) == Expanded(ExpandAll(reg, cs[..i], path).value + [one.value])
    decreases i
  {
    if i == 0 {
      assert cs[..1] == [cs[0]] && cs[..1][1..] == [] && cs[..0] == [];
      assert ExpandAll(reg, [], path) == Expanded([]);
      var one := ExpandOne(reg, cs[0], path);
      assert one.Expanded? ==> [one.value] + [] == [one.value] == [] + [one.value];
    } else {
      var tail := cs[1..];
      assert cs[..i][1..] == tail[..i - 1] && cs[..i + 1][1..] == tail[..i] && tail[i - 1] == cs[i];
      ExpandSnoc(reg, tail, i - 1, path);
      var first, one := ExpandOne(reg, cs[0], path), ExpandOne(reg, cs[i], path);
      if one.Expanded? {
        var rest := ExpandAll(reg, tail[..i - 1], path).value;
        assert [first.value] + (rest + [one.value]) == ([first.value] + rest) + [one.value];
      }
    }
  }
}
