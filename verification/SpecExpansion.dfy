/** Component specifications as values, the expansion of references by
    recursion with a path set, and what that expansion means. */
module SpecExpansion {
  import opened Wrappers

  datatype Element = Element(name: string, conceptLink: Option<string>)

  datatype Component = Component(
    name: string,
    ref: Option<string>,
    cardMin: seq<string>,
    cardMax: seq<string>,
    elements: seq<Element>,
    children: seq<Component>)

  /** The root component of every specification that can be resolved. */
  type Registry = map<string, Component>

  datatype Expansion<+T> = Expanded(value: T) | Recursion(path: set<string>, id: string)

  /** The node that stands for a reference: the referenced root with the cardinalities of the reference. */
  function Overwritten(reference: Component, nested: Component): Component {
    nested.(cardMax := if reference.cardMax != [] then reference.cardMax else nested.cardMax,
            cardMin := if reference.cardMin != [] then reference.cardMin else nested.cardMin,
            ref := reference.ref)
  }

  lemma PathGrows(reg: Registry, path: set<string>, id: string)
    requires id in reg && id !in path
    ensures |reg.Keys - (path + {id})| < |reg.Keys - path|
  {
    assert reg.Keys - path == (reg.Keys - (path + {id})) + {id};
  }

  function ExpandOne(reg: Registry, c: Component, path: set<string>): Expansion<Component>
    decreases |reg.Keys - path|, c
  {
    match c.ref
    case Some(id) =>
      if id in path then Recursion(path, id)
      else if id in reg then
        PathGrows(reg, path, id);
        var nested := ExpandAll(reg, reg[id].children, path + {id});
        if nested.Recursion? then Recursion(nested.path, nested.id)
        else Expanded(Overwritten(c, reg[id].(children := nested.value)))
      else Expanded(c)
    case None =>
      var nested := ExpandAll(reg, c.children, path);
      if nested.Recursion? then Recursion(nested.path, nested.id)
      else Expanded(c.(children := nested.value))
  }

  function ExpandAll(reg: Registry, cs: seq<Component>, path: set<string>): (r: Expansion<seq<Component>>)
    ensures r.Expanded? ==> |r.value| == |cs|
    decreases |reg.Keys - path|, cs
  {
    if cs == [] then Expanded([]) else
      var first := ExpandOne(reg, cs[0], path);
      if first.Recursion? then Recursion(first.path, first.id) else
        var rest := ExpandAll(reg, cs[1..], path);
        if rest.Recursion? then rest else Expanded([first.value] + rest.value)
  }

  // ---------- Substitution, without a path ----------

  /** r stands for the reference: its own cardinalities count where it gives any, everything else but the children is
      that of the referenced component. */
  predicate Replaces(reference: Component, referenced: Component, r: Component) {
    && r.ref == reference.ref && r.name == referenced.name && r.elements == referenced.elements
    && (reference.cardMin != [] ==> r.cardMin == reference.cardMin)
    && (reference.cardMin == [] ==> r.cardMin == referenced.cardMin)
    && (reference.cardMax != [] ==> r.cardMax == reference.cardMax)
    && (reference.cardMax == [] ==> r.cardMax == referenced.cardMax)
  }

  /** r is c with every resolvable reference substituted, all the way down. */
  ghost predicate IsExpansion(reg: Registry, c: Component, r: Component)
    decreases r
  {
    match c.ref
    case None => r == c.(children := r.children) && AreExpansions(reg, c.children, r.children)
    case Some(id) =>
      if id !in reg then r == c
      else
        && Replaces(c, reg[id], r)
        && AreExpansions(reg, reg[id].children, r.children)
  }

  ghost predicate AreExpansions(reg: Registry, cs: seq<Component>, rs: seq<Component>)
    decreases rs
  {
    |cs| == |rs| && forall i :: 0 <= i < |rs| ==> IsExpansion(reg, cs[i], rs[i])
  }

  /** A successful expansion is the substitution. */
  lemma {:induction false} ExpansionSound(reg: Registry, c: Component, path: set<string>)
    ensures var r := ExpandOne(reg, c, path); r.Expanded? ==> IsExpansion(reg, c, r.value)
    decreases |reg.Keys - path|, c
  {
    match c.ref
    case Some(id) =>
      if id in reg && id !in path {
        PathGrows(reg, path, id);
        ExpansionsSound(reg, reg[id].children, path + {id});
      }
    case None =>
      ExpansionsSound(reg, c.children, path);
  }

  lemma {:induction false} ExpansionsSound(reg: Registry, cs: seq<Component>, path: set<string>)
    ensures var r := ExpandAll(reg, cs, path); r.Expanded? ==> AreExpansions(reg, cs, r.value)
    decreases |reg.Keys - path|, cs
  {
    if cs != [] {
      ExpansionSound(reg, cs[0], path);
      ExpansionsSound(reg, cs[1..], path);
      var r := ExpandAll(reg, cs, path);
      if r.Expanded? {
        forall i | 0 <= i < |cs|
          ensures IsExpansion(reg, cs[i], r.value[i])
        {
          if i > 0 {
            assert cs[i] == cs[1..][i - 1] && r.value[i] == r.value[1..][i - 1];
          }
        }
      }
    }
  }

  /** There is at most one substitution, so the path never influences a result. */
  lemma {:induction false} ExpansionUnique(reg: Registry, c: Component, r: Component, r': Component)
    requires IsExpansion(reg, c, r) && IsExpansion(reg, c, r')
    ensures r == r'
    decreases r
  {
    if c.ref.None? {
      ExpansionsUnique(reg, c.children, r.children, r'.children);
    } else if c.ref.value in reg {
      ExpansionsUnique(reg, reg[c.ref.value].children, r.children, r'.children);
    }
  }

  lemma {:induction false} ExpansionsUnique(reg: Registry, cs: seq<Component>, rs: seq<Component>, rs': seq<Component>)
    requires AreExpansions(reg, cs, rs) && AreExpansions(reg, cs, rs')
    ensures rs == rs'
    decreases rs
  {
    forall i | 0 <= i < |rs|
      ensures rs[i] == rs'[i]
    {
      ExpansionUnique(reg, cs[i], rs[i], rs'[i]);
    }
  }

  // ---------- Walks through the reference graph ----------

  /** The ids referenced from a list, looking through embedded components. */
  function Refs(cs: seq<Component>): set<string>
    decreases cs
  {
    if cs == [] then {} else RefsOne(cs[0]) + Refs(cs[1..])
  }

  function RefsOne(c: Component): set<string>
    decreases c
  {
    match c.ref
    case Some(id) => {id}
    case None => Refs(c.children)
  }

  /** w follows references from the list: each id is referenced by the specification before it. */
  ghost predicate IsWalk(reg: Registry, cs: seq<Component>, w: seq<string>)
    decreases w
  {
    && |w| > 0
    && w[0] in Refs(cs)
    && (|w| > 1 ==> w[0] in reg && IsWalk(reg, reg[w[0]].children, w[1..]))
  }

  /** The walk ends on an id that is already on its own path. */
  ghost predicate Revisits(path: set<string>, w: seq<string>) {
    |w| > 0 && (w[|w| - 1] in path || w[|w| - 1] in w[..|w| - 1])
  }

  function Ids(w: seq<string>): set<string> { set x | x in w }

  lemma IdsFirst(path: set<string>, id: string, w: seq<string>)
    ensures path + {id} + Ids(w) == path + Ids([id] + w)
  {
    assert forall x :: x in [id] + w <==> x == id || x in w;
  }

  /** The id that the error names is where the walk ends, and its path holds the ids met before. */
  ghost predicate Reports<T>(error: Expansion<T>, path: set<string>, w: seq<string>)
    requires w != []
  {
    error == Recursion(path + Ids(w[..|w| - 1]), w[|w| - 1])
  }

  /** A reference in front of a walk. */
  lemma ReferenceFirst<T>(reg: Registry, c: Component, path: set<string>, v: seq<string>, error: Expansion<T>)
    requires c.ref.Some? && c.ref.value in reg && IsWalk(reg, reg[c.ref.value].children, v)
    requires Revisits(path + {c.ref.value}, v) && Reports(error, path + {c.ref.value}, v)
    ensures var w := [c.ref.value] + v; IsWalk(reg, [c], w) && Revisits(path, w) && Reports(error, path, w)
  {
    hide Ids;
    var w := [c.ref.value] + v;
    assert Refs([c]) == RefsOne(c);
    assert w[1..] == v && w[|w| - 1] == v[|v| - 1];
    assert w[..|w| - 1] == [c.ref.value] + v[..|v| - 1];
    IdsFirst(path, c.ref.value, v[..|v| - 1]);
  }

  lemma ReferenceAlone(reg: Registry, c: Component, path: set<string>)
    requires c.ref.Some? && c.ref.value in path
    ensures var w := [c.ref.value];
      IsWalk(reg, [c], w) && Revisits(path, w) && Reports(ExpandOne(reg, c, path), path, w)
  {
    assert Refs([c]) == RefsOne(c);
    var w := [c.ref.value];
    assert w[..0] == [] && path + Ids([]) == path;
  }

  /** A recursion error exhibits a walk that revisits its own path. */
  lemma {:induction false} ErrorHasWalk(reg: Registry, c: Component, path: set<string>) returns (w: seq<string>)
    requires ExpandOne(reg, c, path).Recursion?
    ensures IsWalk(reg, [c], w) && Revisits(path, w) && Reports(ExpandOne(reg, c, path), path, w)
    decreases |reg.Keys - path|, c
  {
    hide Ids, Revisits;
    match c.ref
    case Some(id) =>
      if id in path {
        w := [id];
        ReferenceAlone(reg, c, path);
      } else {
        PathGrows(reg, path, id);
        var v := ErrorsHaveWalk(reg, reg[id].children, path + {id});
        w := [id] + v;
        ReferenceFirst(reg, c, path, v, ExpandOne(reg, c, path));
      }
    case None =>
      assert Refs([c]) == RefsOne(c);
      w := ErrorsHaveWalk(reg, c.children, path);
  }

  lemma {:induction false} ErrorsHaveWalk(reg: Registry, cs: seq<Component>, path: set<string>) returns (w: seq<string>)
    requires ExpandAll(reg, cs, path).Recursion?
    ensures IsWalk(reg, cs, w) && Revisits(path, w) && Reports(ExpandAll(reg, cs, path), path, w)
    decreases |reg.Keys - path|, cs
  {
    if ExpandOne(reg, cs[0], path).Recursion? {
      w := ErrorHasWalk(reg, cs[0], path);
      assert Refs([cs[0]]) == RefsOne(cs[0]);
    } else {
      w := ErrorsHaveWalk(reg, cs[1..], path);
    }
  }

  /** Every revisiting walk is found. */
  lemma {:induction false} WalkHasError(reg: Registry, c: Component, path: set<string>, w: seq<string>)
    requires w != [] && w[0] in RefsOne(c) && Revisits(path, w)
    requires |w| > 1 ==> w[0] in reg && IsWalk(reg, reg[w[0]].children, w[1..])
    ensures ExpandOne(reg, c, path).Recursion?
    decreases |reg.Keys - path|, c
  {
    match c.ref
    case Some(id) =>
      if id !in path {
        var v := w[1..];
        assert |w| > 1;
        assert v[|v| - 1] == w[|w| - 1] && w[..|w| - 1] == [id] + v[..|v| - 1];
        PathGrows(reg, path, id);
        WalkHasErrors(reg, reg[id].children, path + {id}, v);
      }
    case None =>
      WalkHasErrors(reg, c.children, path, w);
  }

  lemma {:induction false} WalkHasErrors(reg: Registry, cs: seq<Component>, path: set<string>, w: seq<string>)
    requires IsWalk(reg, cs, w) && Revisits(path, w)
    ensures ExpandAll(reg, cs, path).Recursion?
    decreases |reg.Keys - path|, cs
  {
    if w[0] in RefsOne(cs[0]) {
      WalkHasError(reg, cs[0], path, w);
    } else {
      WalkHasErrors(reg, cs[1..], path, w);
    }
  }

  /** Expansion fails exactly when some walk revisits an id on its own path. */
  lemma RecursionErrorIffRevisitingWalk(reg: Registry, cs: seq<Component>, path: set<string>)
    ensures ExpandAll(reg, cs, path).Recursion? <==> exists w :: IsWalk(reg, cs, w) && Revisits(path, w)
  {
    if ExpandAll(reg, cs, path).Recursion? {
      var w := ErrorsHaveWalk(reg, cs, path);
    }
    forall w | IsWalk(reg, cs, w) && Revisits(path, w)
      ensures ExpandAll(reg, cs, path).Recursion?
    {
      WalkHasErrors(reg, cs, path, w);
    }
  }

  // ---------- Cycles have no finite expansion ----------

  function Size(cs: seq<Component>): nat
    decreases cs
  {
    if cs == [] then 0 else 1 + Size(cs[0].children) + Size(cs[1..])
  }

  lemma {:induction false} SizeMember(cs: seq<Component>, i: nat)
    requires i < |cs|
    ensures Size(cs[i].children) < Size(cs)
  {
    if i > 0 {
      SizeMember(cs[1..], i - 1);
    }
  }

  /** Inside an expansion, the specification of every resolvable referenced id sits expanded and strictly smaller. */
  lemma {:induction false} RefInside(reg: Registry, cs: seq<Component>, rs: seq<Component>, id: string)
    returns (inner: seq<Component>)
    requires AreExpansions(reg, cs, rs) && id in Refs(cs) && id in reg
    ensures AreExpansions(reg, reg[id].children, inner) && Size(inner) < Size(rs)
    decreases rs
  {
    var i := RefAt(cs, id);
    SizeMember(rs, i);
    assert IsExpansion(reg, cs[i], rs[i]);
    if cs[i].ref.None? {
      inner := RefInside(reg, cs[i].children, rs[i].children, id);
    } else {
      inner := rs[i].children;
    }
  }

  lemma {:induction false} RefAt(cs: seq<Component>, id: string) returns (i: nat)
    requires id in Refs(cs)
    ensures i < |cs| && id in RefsOne(cs[i])
  {
    if id in RefsOne(cs[0]) {
      i := 0;
    } else {
      var k := RefAt(cs[1..], id);
      i := k + 1;
    }
  }

  lemma {:induction false} WalkInside(reg: Registry, cs: seq<Component>, rs: seq<Component>, w: seq<string>)
    returns (inner: seq<Component>)
    requires AreExpansions(reg, cs, rs) && IsWalk(reg, cs, w) && w[|w| - 1] in reg
    ensures AreExpansions(reg, reg[w[|w| - 1]].children, inner) && Size(inner) < Size(rs)
    decreases |w|
  {
    inner := RefInside(reg, cs, rs, w[0]);
    if |w| > 1 {
      inner := WalkInside(reg, reg[w[0]].children, inner, w[1..]);
    }
  }

  lemma {:induction false} SplitWalk(reg: Registry, cs: seq<Component>, w: seq<string>, i: nat)
    requires IsWalk(reg, cs, w) && i + 1 < |w|
    ensures IsWalk(reg, cs, w[..i + 1]) && w[i] in reg && IsWalk(reg, reg[w[i]].children, w[i + 1..])
    decreases i
  {
    if i > 0 {
      SplitWalk(reg, reg[w[0]].children, w[1..], i - 1);
      assert w[..i + 1][1..] == w[1..][..i] && w[1..][i..] == w[i + 1..];
    }
  }

  /** With a finite expansion, no walk comes back to where it started. */
  lemma NoWalkBack(reg: Registry, id: string, rs: seq<Component>, w: seq<string>)
    requires id in reg && AreExpansions(reg, reg[id].children, rs)
    requires IsWalk(reg, reg[id].children, w)
    ensures w[|w| - 1] != id
  {
    if w[|w| - 1] == id {
      var inner := WalkInside(reg, reg[id].children, rs, w);
      ExpansionsUnique(reg, reg[id].children, rs, inner);
    }
  }

  /** Expanding a registered component from its own id succeeds exactly when a finite expansion exists. */
  lemma ComponentExpandsIffFinite(reg: Registry, id: string)
    requires id in reg
    ensures ExpandAll(reg, reg[id].children, {id}).Expanded? <==>
            exists rs :: AreExpansions(reg, reg[id].children, rs)
  {
    var cs := reg[id].children;
    ExpansionsSound(reg, cs, {id});
    if ExpandAll(reg, cs, {id}).Expanded? {
      assert AreExpansions(reg, cs, ExpandAll(reg, cs, {id}).value);
    }
    forall rs | AreExpansions(reg, cs, rs)
      ensures ExpandAll(reg, cs, {id}).Expanded?
    {
      if ExpandAll(reg, cs, {id}).Recursion? {
        var w := ErrorsHaveWalk(reg, cs, {id});
        var last := w[|w| - 1];
        NoWalkBack(reg, id, rs, w);
        if last in w[..|w| - 1] {
          var i :| 0 <= i < |w| - 1 && w[i] == last;
          SplitWalk(reg, cs, w, i);
          assert w[..i + 1][i] == last;
          var inner := WalkInside(reg, cs, rs, w[..i + 1]);
          NoWalkBack(reg, last, inner, w[i + 1..]);
        }
      }
    }
  }

  // ---------- Idempotence ----------

  /** Expanding an expansion again, on the same path, succeeds and changes nothing. */
  lemma {:induction false} ExpandOneIdempotent(reg: Registry, c: Component, path: set<string>)
    ensures var r := ExpandOne(reg, c, path); r.Expanded? ==> ExpandOne(reg, r.value, path) == r
    decreases |reg.Keys - path|, c
  {
    if c.ref.None? {
      ExpandAllIdempotent(reg, c.children, path);
    }
  }

  lemma {:induction false} ExpandAllIdempotent(reg: Registry, cs: seq<Component>, path: set<string>)
    ensures var r := ExpandAll(reg, cs, path); r.Expanded? ==> ExpandAll(reg, r.value, path) == r
    decreases |reg.Keys - path|, cs
  {
    if cs != [] {
      ExpandOneIdempotent(reg, cs[0], path);
      ExpandAllIdempotent(reg, cs[1..], path);
      var r := ExpandAll(reg, cs, path);
      if r.Expanded? {
        assert r.value[1..] == ExpandAll(reg, cs[1..], path).value;
      }
    }
  }
}
