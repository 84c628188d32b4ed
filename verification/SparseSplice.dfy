/** es5-shim's generic splice over an object with holes. Section 15.4.4.12 of ECMA-262 5.1 looks
    properties up through the prototype where the shim asks for own ones; both are here, and exactly
    when they agree. */
module SparseSplice {
  import opened Wrappers

  /** What ToInteger gives. */
  datatype Integer = Finite(value: int) | PlusInfinity | MinusInfinity

  function Max(a: int, b: int): int { if a > b then a else b }

  function Min(a: int, b: int): int { if a < b then a else b }

  /** The length, whole and modulo 2^32. */
  function ToUint32(n: int): (u: nat)
    ensures u <= 0xFFFF_FFFF && (n - u) % 0x1_0000_0000 == 0
  {
    n % 0x1_0000_0000
  }

  /** Steps 5 and 6: a negative start counts from the end; it is at least 0 and at most the length. */
  function ActualStart(start: Integer, len: nat): (s: nat)
    ensures s <= len
    ensures start == MinusInfinity ==> s == 0
    ensures start == PlusInfinity ==> s == len
    ensures start.Finite? && 0 <= start.value <= len ==> s == start.value
    ensures start.Finite? && start.value > len ==> s == len
    ensures start.Finite? && start.value < 0 <= start.value + len ==> start.value == s - len
    ensures start.Finite? && start.value + len < 0 ==> s == 0
  {
    match start
    case MinusInfinity => 0
    case PlusInfinity => len
    case Finite(n) => if n < 0 then Max(len + n, 0) else Min(n, len)
  }

  /** Step 7: as many as asked for, at least none and at most the rest. */
  function ActualDeleteCount(deleteCount: Integer, rest: nat): (d: nat)
    ensures d <= rest
    ensures deleteCount == PlusInfinity ==> d == rest
    ensures deleteCount == MinusInfinity ==> d == 0
    ensures deleteCount.Finite? && 0 <= deleteCount.value <= rest ==> d == deleteCount.value
    ensures deleteCount.Finite? && deleteCount.value > rest ==> d == rest
    ensures deleteCount.Finite? && deleteCount.value < 0 ==> d == 0
  {
    match deleteCount
    case MinusInfinity => 0
    case PlusInfinity => rest
    case Finite(n) => Min(Max(n, 0), rest)
  }

  // ---------- The result, index by index ----------

  /** The property at an index, or a hole. */
  function Get<V>(p: map<nat, V>, i: nat): Option<V> { if i in p then Some(p[i]) else None }

  /** The properties of an object that owns p and inherits the rest. */
  function Visible<V>(p: map<nat, V>, inherited: map<nat, V>): map<nat, V> { inherited + p }

  lemma VisibleAt<V>(p: map<nat, V>, inherited: map<nat, V>)
    ensures forall i: nat :: Get(Visible(p, inherited), i) == if i in p then Get(p, i) else Get(inherited, i)
  {
  }

  /** What index i owns afterwards, when v is what is found at each index: the prefix, the items, the tail as it is
      found with its holes if it moves, nothing where the object shrank, and whatever lay beyond both lengths. */
  function SplicedAt<V>(p: map<nat, V>, v: map<nat, V>, len: nat, s: nat, d: nat, items: seq<V>, i: nat): Option<V>
    requires s + d <= len
  {
    if i < s then Get(p, i)
    else if i < s + |items| then Some(items[i - s])
    else if i < len - d + |items| then (if |items| == d then Get(p, i) else Get(v, i - |items| + d))
    else if i < len then None
    else Get(p, i)
  }

  /** The owned elements between two indices, in order. */
  function Owned<V>(p: map<nat, V>, from: nat, to: nat): seq<V>
    decreases to - from
  {
    if from >= to then [] else Owned(p, from, to - 1) + if to - 1 in p then [p[to - 1]] else []
  }

  lemma {:induction false} OwnedSplit<V>(p: map<nat, V>, a: nat, b: nat, c: nat)
    requires a <= b <= c
    ensures Owned(p, a, c) == Owned(p, a, b) + Owned(p, b, c)
    decreases c
  {
    if b < c {
      OwnedSplit(p, a, b, c - 1);
      var last := if c - 1 in p then [p[c - 1]] else [];
      assert Owned(p, a, b) + Owned(p, b, c - 1) + last == Owned(p, a, b) + (Owned(p, b, c - 1) + last);
    } else {
      assert Owned(p, a, b) + [] == Owned(p, a, b);
    }
  }

  /** The same elements and holes at shifted places. */
  lemma {:induction false} OwnedShift<V>(p: map<nat, V>, a: nat, q: map<nat, V>, b: nat, n: nat)
    requires forall i: nat :: a <= i < a + n ==> Get(p, i) == Get(q, i - a + b)
    ensures Owned(p, a, a + n) == Owned(q, b, b + n)
    decreases n
  {
    if n > 0 {
      OwnedShift(p, a, q, b, n - 1);
      assert Get(p, a + n - 1) == Get(q, b + n - 1);
    }
  }

  lemma {:induction false} OwnedItems<V>(p: map<nat, V>, a: nat, items: seq<V>)
    requires forall i: nat :: a <= i < a + |items| ==> Get(p, i) == Some(items[i - a])
    ensures Owned(p, a, a + |items|) == items
    decreases |items|
  {
    if items != [] {
      var n := |items| - 1;
      OwnedItems(p, a, items[..n]);
      assert Get(p, a + n) == Some(items[n]);
      assert items == items[..n] + [items[n]];
    }
  }

  ghost predicate IsSpliced<V>(p: map<nat, V>, v: map<nat, V>, len: nat, s: nat, d: nat, items: seq<V>, q: map<nat, V>)
    requires s + d <= len
  {
    forall i: nat :: Get(q, i) == SplicedAt(p, v, len, s, d, items, i)
  }

  ghost predicate IsRemoved<V>(p: map<nat, V>, s: nat, d: nat, removed: map<nat, V>) {
    forall k: nat :: Get(removed, k) == if k < d then Get(p, s + k) else None
  }

  /** The owned elements afterwards are the prefix, the items and the tail, and the removed ones are the slice: none is
      lost, doubled or reordered. */
  lemma SplicedParts<V>(p: map<nat, V>, len: nat, s: nat, d: nat, items: seq<V>, q: map<nat, V>)
    requires s + d <= len && IsSpliced(p, p, len, s, d, items, q)
    ensures Owned(q, 0, s) == Owned(p, 0, s) && Owned(q, s, s + |items|) == items
    ensures Owned(q, s + |items|, len - d + |items|) == Owned(p, s + d, len)
  {
    hide Owned;
    forall i: nat
      ensures i < s ==> Get(q, i) == Get(p, i)
      ensures s <= i < s + |items| ==> Get(q, i) == Some(items[i - s])
      ensures s + |items| <= i < len - d + |items| ==> Get(q, i) == Get(p, i - |items| + d)
    {
      assert Get(q, i) == SplicedAt(p, p, len, s, d, items, i);
    }
    OwnedShift(q, 0, p, 0, s);
    OwnedItems(q, s, items);
    OwnedShift(q, s + |items|, p, s + d, len - s - d);
  }

  lemma SpliceConserves<V>(p: map<nat, V>, len: nat, s: nat, d: nat, items: seq<V>, q: map<nat, V>, removed: map<nat,
                           V>)
    requires s + d <= len && IsSpliced(p, p, len, s, d, items, q) && IsRemoved(p, s, d, removed)
    ensures Owned(q, 0, len - d + |items|) == Owned(p, 0, s) + items + Owned(p, s + d, len)
    ensures Owned(removed, 0, d) == Owned(p, s, s + d)
    ensures multiset(Owned(q, 0, len - d + |items|)) + multiset(Owned(removed, 0, d)) ==
            multiset(Owned(p, 0, len)) + multiset(items)
  {
    hide Owned, Get;
    SplicedParts(p, len, s, d, items, q);
    var n := |items|;
    OwnedSplit(q, 0, s, len - d + n);
    OwnedSplit(q, s, s + n, len - d + n);
    RemovedParts(p, s, d, removed);
    OwnedSplit(p, 0, s, len);
    OwnedSplit(p, s, s + d, len);
    var a, b, c := Owned(p, 0, s), Owned(p, s, s + d), Owned(p, s + d, len);
    assert a + (items + c) == a + items + c;
    Shuffle(a, b, c, items);
  }

  lemma RemovedParts<V>(p: map<nat, V>, s: nat, d: nat, removed: map<nat, V>)
    requires IsRemoved(p, s, d, removed)
    ensures Owned(removed, 0, d) == Owned(p, s, s + d)
  {
    OwnedShift(removed, 0, p, s, d);
  }

  lemma Shuffle<V>(a: seq<V>, b: seq<V>, c: seq<V>, items: seq<V>)
    ensures multiset(a + items + c) + multiset(b) == multiset(a + (b + c)) + multiset(items)
  {
    assert multiset(a + items + c) == multiset(a) + multiset(items) + multiset(c);
    assert multiset(a + (b + c)) == multiset(a) + (multiset(b) + multiset(c));
  }

  // ---------- The object ----------

  class Sparse<V> {
    var props: map<nat, V>
    var length: int
    /** What the prototypes hold, and whether it is looked at: HasProperty does, owns does not. */
    const inherited: map<nat, V>
    const inherits: bool

    constructor (props: map<nat, V>, length: int, inherited: map<nat, V>, inherits: bool)
      ensures this.props == props && this.length == length && this.inherited == inherited && this.inherits == inherits
    {
      this.props, this.length, this.inherited, this.inherits := props, length, inherited, inherits;
    }

    function Found(): map<nat, V>
      reads this
    {
      if inherits then Visible(props, inherited) else props
    }

    /** `if (owns(O, from)) O[to] = O[from]; else delete O[to];` */
    method Move(from: nat, to: nat)
      modifies `props
      ensures forall i: nat :: Get(props, i) == if i == to then Get(old(Found()), from) else Get(old(props), i)
    {
      if from in Found() {
        props := props[to := Found()[from]];
      } else {
        props := props - {to};
      }
      forall i: nat
        ensures Get(props, i) == if i == to then Get(old(Found()), from) else Get(old(props), i)
      {
      }
    }

    /** An index found as it was, when nothing has been stored there. */
    lemma FoundAt(p: map<nat, V>, i: nat)
      requires Get(props, i) == Get(p, i)
      ensures Get(Found(), i) == Get(if inherits then Visible(p, inherited) else p, i)
    {
      VisibleAt(props, inherited);
      VisibleAt(p, inherited);
    }

    method Delete(i: nat)
      modifies `props
      ensures forall j: nat :: Get(props, j) == if j == i then None else Get(old(props), j)
    {
      props := props - {i};
      forall j: nat
        ensures Get(props, j) == if j == i then None else Get(old(props), j)
      {
      }
    }

    method Set(i: nat, v: V)
      modifies `props
      ensures forall j: nat :: Get(props, j) == if j == i then Some(v) else Get(old(props), j)
    {
      props := props[i := v];
      forall j: nat
        ensures Get(props, j) == if j == i then Some(v) else Get(old(props), j)
      {
      }
    }

    /** The tail moves down, lowest index first, and what it leaves behind is deleted. */
    method ShiftDown(len: nat, s: nat, d: nat, n: nat)
      requires s + d <= len && n < d
      modifies `props
      ensures forall i: nat :: Get(props, i) == ShiftedAt(old(props), old(Found()), len, s, d, n, i)
    {
      hide Get;
      var k: nat := s;
      while k < len - d
        invariant s <= k <= len - d
        invariant forall i: nat :: Get(props, i) == MovedAt(old(props), old(Found()), s + n, k + n, d - n, i)
      {
        FoundAt(old(props), k + d);
        Move(k + d, k + n);
        forall i: nat
          ensures Get(props, i) == MovedAt(old(props), old(Found()), s + n, k + 1 + n, d - n, i)
        {
        }
        k := k + 1;
      }
      k := len;
      forall i: nat
        ensures Get(props, i) == if k <= i < len then None else MovedAt(old(props), old(Found()), s + n, len - d + n,
            d - n, i)
      {
      }
      while k > len - d + n
        invariant len - d + n <= k <= len
        invariant forall i: nat :: Get(props, i) == if k <= i < len then None
                  else MovedAt(old(props), old(Found()), s + n, len - d + n, d - n, i)
      {
        Delete(k - 1);
        forall i: nat
          ensures Get(props, i) == if k - 1 <= i < len then None
                  else MovedAt(old(props), old(Found()), s + n, len - d + n, d - n, i)
        {
        }
        k := k - 1;
      }
      forall i: nat
        ensures Get(props, i) == ShiftedAt(old(props), old(Found()), len, s, d, n, i)
      {
      }
    }

    /** The tail moves up, highest index first. */
    method ShiftUp(len: nat, s: nat, d: nat, n: nat)
      requires s + d <= len && n > d
      modifies `props
      ensures forall i: nat :: Get(props, i) == ShiftedAt(old(props), old(Found()), len, s, d, n, i)
    {
      hide Get;
      var k: nat := len - d;
      while k > s
        invariant s <= k <= len - d
        invariant forall i: nat :: Get(props, i) == MovedAt(old(props), old(Found()), k + n, len - d + n, d - n, i)
      {
        FoundAt(old(props), k + d - 1);
        Move(k + d - 1, k + n - 1);
        forall i: nat
          ensures Get(props, i) == MovedAt(old(props), old(Found()), k - 1 + n, len - d + n, d - n, i)
        {
        }
        k := k - 1;
      }
      forall i: nat
        ensures Get(props, i) == ShiftedAt(old(props), old(Found()), len, s, d, n, i)
      {
      }
    }

    method Insert(s: nat, items: seq<V>)
      modifies `props
      ensures forall i: nat :: Get(props, i) == if s <= i < s + |items| then Some(items[i - s]) else Get(old(props), i)
    {
      hide Get;
      var k := s;
      for i := 0 to |items|
        invariant k == s + i
        invariant forall j: nat :: Get(props, j) == if s <= j < s + i then Some(items[j - s]) else Get(old(props), j)
      {
        Set(k, items[i]);
        forall j: nat
          ensures Get(props, j) == if s <= j < s + i + 1 then Some(items[j - s]) else Get(old(props), j)
        {
        }
        k := k + 1;
      }
    }

    /** The owned elements of the slice, at their offsets from its start. */
    method Slice(s: nat, d: nat) returns (A: map<nat, V>)
      ensures IsRemoved(Found(), s, d, A)
    {
      A := map[];
      var k: nat := 0;
      while k < d
        invariant k <= d
        invariant IsRemoved(Found(), s, k, A)
      {
        ghost var was := A;
        if s + k in Found() {
          A := A[k := Found()[s + k]];
        }
        forall i: nat
          ensures Get(A, i) == if i < k + 1 then Get(Found(), s + i) else None
        {
          assert Get(was, i) == if i < k then Get(Found(), s + i) else None;
        }
        k := k + 1;
      }
    }

    /** Returns the removed slice, holes included, and leaves the spliced object. */
    method Splice(start: Integer, deleteCount: Integer, items: seq<V>) returns (A: map<nat, V>)
      modifies this
      ensures var len := ToUint32(old(length));
              var s := ActualStart(start, len);
              var d := ActualDeleteCount(deleteCount, len - s);
              IsSpliced(old(props), old(Found()), len, s, d, items, props) && length == len - d + |items| &&
              IsRemoved(old(Found()), s, d, A)
    {
      hide Get, ShiftedAt, IsSpliced, IsRemoved, ToUint32, ActualStart, ActualDeleteCount;
      var len := ToUint32(length);
      var s := ActualStart(start, len);
      var d := ActualDeleteCount(deleteCount, len - s);
      A := Slice(s, d);
      var itemCount := |items|;
      if itemCount < d {
        ShiftDown(len, s, d, itemCount);
      } else if itemCount > d {
        ShiftUp(len, s, d, itemCount);
      } else {
        ShiftedNowhere(props, Found(), len, s, d);
      }
      ghost var shifted := props;
      Insert(s, items);
      InsertedIsSpliced(old(props), old(Found()), shifted, props, len, s, d, items);
      length := len - d + itemCount;
    }
  }

  lemma ShiftedNowhere<V>(p: map<nat, V>, v: map<nat, V>, len: nat, s: nat, d: nat)
    requires s + d <= len
    ensures forall i: nat :: Get(p, i) == ShiftedAt(p, v, len, s, d, d, i)
  {
    hide Get;
    forall i: nat
      ensures Get(p, i) == ShiftedAt(p, v, len, s, d, d, i)
    {
    }
  }

  lemma InsertedIsSpliced<V>(p: map<nat, V>, v: map<nat, V>, mid: map<nat, V>, q: map<nat, V>, len: nat, s: nat, d: nat,
                             items: seq<V>)
    requires s + d <= len
    requires forall i: nat :: Get(mid, i) == ShiftedAt(p, v, len, s, d, |items|, i)
    requires forall i: nat :: Get(q, i) == if s <= i < s + |items| then Some(items[i - s]) else Get(mid, i)
    ensures IsSpliced(p, v, len, s, d, items, q)
  {
    hide Get;
    forall i: nat
      ensures Get(q, i) == SplicedAt(p, v, len, s, d, items, i)
    {
      assert Get(mid, i) == ShiftedAt(p, v, len, s, d, |items|, i);
    }
  }

  /** The indices from `first` to `last` hold what was found `distance` places higher. */
  function MovedAt<V>(p: map<nat, V>, v: map<nat, V>, first: nat, last: nat, distance: int, i: nat): Option<V>
    requires first + distance >= 0
  {
    if first <= i < last then Get(v, i + distance) else Get(p, i)
  }

  /** After the tail has moved from s + d to s + n. */
  function ShiftedAt<V>(p: map<nat, V>, v: map<nat, V>, len: nat, s: nat, d: nat, n: nat, i: nat): Option<V>
    requires s + d <= len
  {
    if s + n <= i < len - d + n then (if n == d then Get(p, i) else Get(v, i + d - n))
      else if len - d + n <= i < len then None else Get(p, i)
  }

  // ---------- The shim and the standard ----------

  /** The indices whose properties are looked up: what is deleted, and the tail if it moves. */
  predicate LookedUp(len: nat, s: nat, d: nat, n: nat, i: nat)
    requires s + d <= len
  {
    s <= i < if n == d then s + d else len
  }

  /** No index that is looked up is inherited without being owned. */
  ghost predicate NothingInherited<V>(p: map<nat, V>, inherited: map<nat, V>, len: nat, s: nat, d: nat, n: nat)
    requires s + d <= len
  {
    forall i: nat :: LookedUp(len, s, d, n, i) && i in inherited ==> i in p
  }

  /** Looking up own properties, as the shim does, and all properties, as the standard asks, leave the same object and
      return the same slice exactly when no index that is looked up is inherited without being owned. */
  lemma SplicesAgreeIff<V>(p: map<nat, V>, inherited: map<nat, V>, len: nat, s: nat, d: nat, items: seq<V>,
                           q: map<nat, V>, removed: map<nat, V>, q': map<nat, V>, removed': map<nat, V>)
    requires s + d <= len
    requires IsSpliced(p, p, len, s, d, items, q) && IsRemoved(p, s, d, removed)
    requires IsSpliced(p, Visible(p, inherited), len, s, d, items, q') &&
             IsRemoved(Visible(p, inherited), s, d, removed')
    ensures q == q' && removed == removed' <==> NothingInherited(p, inherited, len, s, d, |items|)
  {
    hide Get, IsSpliced, IsRemoved, Visible, NothingInherited;
    if NothingInherited(p, inherited, len, s, d, |items|) {
      forall i: nat
        ensures Get(q, i) == Get(q', i) && Get(removed, i) == Get(removed', i)
      {
        AgreeAt(p, inherited, len, s, d, items, q, removed, q', removed', i);
      }
      SameMap(q, q');
      SameMap(removed, removed');
    } else {
      DifferSomewhere(p, inherited, len, s, d, items, q, removed, q', removed');
    }
  }

  lemma AgreeAt<V>(p: map<nat, V>, inherited: map<nat, V>, len: nat, s: nat, d: nat, items: seq<V>,
                   q: map<nat, V>, removed: map<nat, V>, q': map<nat, V>, removed': map<nat, V>, i: nat)
    requires s + d <= len
    requires IsSpliced(p, p, len, s, d, items, q) && IsRemoved(p, s, d, removed)
    requires IsSpliced(p, Visible(p, inherited), len, s, d, items, q') &&
             IsRemoved(Visible(p, inherited), s, d, removed')
    requires NothingInherited(p, inherited, len, s, d, |items|)
    ensures Get(q, i) == Get(q', i) && Get(removed, i) == Get(removed', i)
  {
    hide Get, Visible, IsSpliced, IsRemoved, NothingInherited;
    var v, n := Visible(p, inherited), |items|;
    SplicedIs(p, p, len, s, d, items, q, i);
    SplicedIs(p, v, len, s, d, items, q', i);
    RemovedIs(p, s, d, removed, i);
    RemovedIs(v, s, d, removed', i);
    if s + n <= i < len - d + n && n != d {
      NothingAt(p, inherited, len, s, d, n, i - n + d);
    }
    if i < d {
      NothingAt(p, inherited, len, s, d, n, s + i);
    }
  }

  lemma SplicedIs<V>(p: map<nat, V>, v: map<nat, V>, len: nat, s: nat, d: nat, items: seq<V>, q: map<nat, V>, i: nat)
    requires s + d <= len && IsSpliced(p, v, len, s, d, items, q)
    ensures Get(q, i) == SplicedAt(p, v, len, s, d, items, i)
  {
  }

  lemma RemovedIs<V>(v: map<nat, V>, s: nat, d: nat, removed: map<nat, V>, k: nat)
    requires IsRemoved(v, s, d, removed)
    ensures Get(removed, k) == if k < d then Get(v, s + k) else None
  {
  }

  lemma NothingAt<V>(p: map<nat, V>, inherited: map<nat, V>, len: nat, s: nat, d: nat, n: nat, i: nat)
    requires s + d <= len && NothingInherited(p, inherited, len, s, d, n) && LookedUp(len, s, d, n, i)
    ensures Get(Visible(p, inherited), i) == Get(p, i)
  {
    OwnedOrHole(p, inherited, i);
  }

  lemma OwnedOrHole<V>(p: map<nat, V>, inherited: map<nat, V>, i: nat)
    ensures (i in inherited ==> i in p) <==> Get(Visible(p, inherited), i) == Get(p, i)
  {
  }

  lemma DifferSomewhere<V>(p: map<nat, V>, inherited: map<nat, V>, len: nat, s: nat, d: nat, items: seq<V>,
                           q: map<nat, V>, removed: map<nat, V>, q': map<nat, V>, removed': map<nat, V>)
    requires s + d <= len
    requires IsSpliced(p, p, len, s, d, items, q) && IsRemoved(p, s, d, removed)
    requires IsSpliced(p, Visible(p, inherited), len, s, d, items, q') &&
             IsRemoved(Visible(p, inherited), s, d, removed')
    requires !NothingInherited(p, inherited, len, s, d, |items|)
    ensures q != q' || removed != removed'
  {
    hide Get, Visible;
    var v, n := Visible(p, inherited), |items|;
    var i: nat :| LookedUp(len, s, d, n, i) && i in inherited && i !in p;
    OwnedOrHole(p, inherited, i);
    if i < s + d {
      assert Get(removed, i - s) == Get(p, s + (i - s)) && Get(removed', i - s) == Get(v, s + (i - s));
    } else {
      assert Get(q, i - d + n) == SplicedAt(p, p, len, s, d, items, i - d + n) == Get(p, i);
      assert Get(q', i - d + n) == SplicedAt(p, v, len, s, d, items, i - d + n) == Get(v, i);
    }
  }

  lemma SameMap<V>(a: map<nat, V>, b: map<nat, V>)
    requires forall i: nat :: Get(a, i) == Get(b, i)
    ensures a == b
  {
    forall i: nat
      ensures i in a <==> i in b
      ensures i in a ==> a[i] == b[i]
    {
      assert Get(a, i) == Get(b, i);
    }
  }

  /** Both algorithms on objects that own and inherit the same. */
  method SpliceBoth<V(==)>(props: map<nat, V>, inherited: map<nat, V>, length: int, start: Integer,
                           deleteCount: Integer, items: seq<V>)
    returns (agree: bool)
    ensures var len := ToUint32(length);
            var s := ActualStart(start, len);
            var d := ActualDeleteCount(deleteCount, len - s);
            agree <==> NothingInherited(props, inherited, len, s, d, |items|)
  {
    hide IsSpliced, IsRemoved, NothingInherited, ToUint32, ActualStart, ActualDeleteCount, Visible;
    var shim := new Sparse(props, length, inherited, false);
    var standard := new Sparse(props, length, inherited, true);
    var removed := shim.Splice(start, deleteCount, items);
    var removed' := standard.Splice(start, deleteCount, items);
    ghost var len := ToUint32(length);
    ghost var s := ActualStart(start, len);
    SplicesAgreeIff(props, inherited, len, s, ActualDeleteCount(deleteCount, len - s), items, shim.props, removed,
                    standard.props, removed');
    agree := shim.props == standard.props && removed == removed';
  }

  /** An object without own elements that inherits one: the shim returns a hole where the standard returns the
      element. */
  lemma InheritedElementMissed<V>(x: V, q: map<nat, V>, removed: map<nat, V>, q': map<nat, V>, removed': map<nat, V>)
    requires IsSpliced(map[], map[], 1, 0, 1, [], q) && IsRemoved(map[], 0, 1, removed)
    requires IsSpliced(map[], Visible(map[], map[0 := x]), 1, 0, 1, [], q') &&
             IsRemoved(Visible(map[], map[0 := x]), 0, 1, removed')
    ensures Get(removed, 0) == None && Get(removed', 0) == Some(x)
  {
    VisibleAt(map[], map[0 := x]);
  }
}
