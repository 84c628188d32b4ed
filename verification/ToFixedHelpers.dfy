/** The `Number.prototype.toFixed` shim: a six-limb base 10^7 accumulator over
    JavaScript numbers, and the rounding it performs for section 15.7.4.5 of
    ECMA-262 5.1. JavaScript numbers are reals here; the lowest limb may hold a
    fraction, which happens for arguments below 2^-69. Products are written with
    Times so that proofs can keep them folded. */
module ToFixedHelpers {
  import opened Decimal

  const SIZE: nat := 6

  // ---------- Reals ----------

  predicate IsInt(x: real) { x == x.Floor as real }

  function Times(x: real, y: real): real { x * y }

  function FloorDiv(v: real, d: real): int
    requires d > 0.0
  {
    (v / d).Floor
  }

  /** JavaScript `a % n` for a >= 0 and n > 0. */
  function Rem(a: real, n: real): real
    requires n > 0.0
  {
    a - Times(n, FloorDiv(a, n) as real)
  }

  function Exp(x: real, n: nat): (p: real)
    ensures x > 0.0 ==> p > 0.0
  {
    if n == 0 then 1.0 else Times(x, Exp(x, n - 1))
  }

  lemma TimesMonotone(x: real, y: real, a: real)
    requires a > 0.0
    ensures x <= y ==> Times(x, a) <= Times(y, a)
    ensures x < y ==> Times(x, a) < Times(y, a)
  {
  }

  lemma TimesAssociative(x: real, y: real, z: real)
    ensures Times(Times(x, y), z) == Times(x, Times(y, z))
  {
  }

  lemma TimesCommutes(x: real, y: real)
    ensures Times(x, y) == Times(y, x)
  {
  }

  lemma TimesInt(p: int, b: int)
    ensures Times(p as real, b as real) == (p * b) as real
  {
  }

  lemma TimesUnit(x: real)
    ensures Times(1.0, x) == x == Times(x, 1.0) && Times(0.0, x) == 0.0 == Times(x, 0.0)
  {
  }

  lemma TimesDistributes(n: real, d: real, V: real)
    ensures Times(n, d + V) == Times(n, d) + Times(n, V) && Times(n, 10_000_000.0 * V) == 10_000_000.0 * Times(n, V)
    ensures Times(d + V, n) == Times(d, n) + Times(V, n) && Times(d - V, n) == Times(d, n) - Times(V, n)
  {
  }

  lemma TimesRatio(v: real, d: real)
    requires d > 0.0
    ensures Times(v / d, d) == v
  {
  }

  lemma {:induction false} ExpAdd(x: real, a: nat, b: nat)
    ensures Exp(x, a + b) == Times(Exp(x, a), Exp(x, b))
  {
    hide Times;
    if a > 0 {
      ExpAdd(x, a - 1, b);
      TimesAssociative(x, Exp(x, a - 1), Exp(x, b));
    } else {
      TimesUnit(Exp(x, b));
    }
  }

  /** q is the integer quotient of v by d. */
  predicate IsQuotient(q: int, v: real, d: real) {
    Times(q as real, d) <= v < Times((q + 1) as real, d)
  }

  lemma RatioIsQuotient(x: real, v: real, d: real)
    requires d > 0.0 && Times(x, d) == v
    ensures IsQuotient(x.Floor, v, d)
  {
    hide Times;
    TimesMonotone(x.Floor as real, x, d);
    TimesMonotone(x, (x.Floor + 1) as real, d);
  }

  lemma FloorIsQuotient(v: real, d: real)
    requires d > 0.0
    ensures IsQuotient(FloorDiv(v, d), v, d)
  {
    hide Times, IsQuotient;
    TimesRatio(v, d);
    RatioIsQuotient(v / d, v, d);
  }

  lemma QuotientUnique(p: int, q: int, v: real, d: real)
    requires d > 0.0 && IsQuotient(p, v, d) && IsQuotient(q, v, d)
    ensures p == q
  {
    hide Times;
    TimesMonotone((q + 1) as real, p as real, d);
    TimesMonotone((p + 1) as real, q as real, d);
  }

  lemma QuotientIsFloor(q: int, v: real, d: real)
    requires d > 0.0 && IsQuotient(q, v, d)
    ensures q == FloorDiv(v, d)
  {
    hide Times, IsQuotient, FloorDiv;
    FloorIsQuotient(v, d);
    QuotientUnique(q, FloorDiv(v, d), v, d);
  }

  lemma QuotientInRange(q: int, v: real, d: real, bound: int)
    requires d > 0.0 && IsQuotient(q, v, d) && 0.0 <= v < Times(bound as real, d)
    ensures 0 <= q < bound
  {
    hide Times;
    TimesMonotone(bound as real, q as real, d);
    TimesMonotone((q + 1) as real, 0.0, d);
    TimesUnit(d);
  }

  /** Dividing and flooring twice is one division by the product. */
  lemma QuotientOfQuotient(p: int, q: int, v: real, a: real, b: int)
    requires a > 0.0 && b > 0 && IsQuotient(q, v, a) && IsQuotient(p, q as real, b as real)
    ensures IsQuotient(p, v, Times(a, b as real))
  {
    hide Times;
    TimesInt(p, b);
    TimesInt(p + 1, b);
    var low, high := p * b, (p + 1) * b;
    assert low <= q && q + 1 <= high;
    TimesMonotone(low as real, q as real, a);
    TimesMonotone((q + 1) as real, high as real, a);
    TimesAssociative(p as real, b as real, a);
    TimesAssociative((p + 1) as real, b as real, a);
    TimesCommutes(a, b as real);
  }

  lemma RemRange(c: real, n: real)
    requires n > 0.0
    ensures 0.0 <= Rem(c, n) < n
  {
    hide Times, FloorDiv;
    FloorIsQuotient(c, n);
    var q := FloorDiv(c, n) as real;
    TimesDistributes(n, q, 1.0);
    TimesUnit(n);
    TimesCommutes(n, q);
  }

  lemma RemInt(c: int, n: nat)
    requires n > 0
    ensures IsInt(Rem(c as real, n as real))
  {
    hide Times, FloorDiv;
    var q := FloorDiv(c as real, n as real);
    TimesInt(n, q);
    assert Rem(c as real, n as real) == (c - n * q) as real;
  }

  // ---------- Limbs ----------

  /** The number held in base 10^7 limbs, least significant first. */
  function Value(s: seq<real>): real {
    if s == [] then 0.0 else s[0] + 10_000_000.0 * Value(s[1..])
  }

  /** c moved up by k limbs. */
  function Shifted(c: real, k: nat): real {
    if k == 0 then c else 10_000_000.0 * Shifted(c, k - 1)
  }

  /** Only the lowest limb may be fractional. */
  predicate Limbs(s: seq<real>) {
    (forall i :: 0 <= i < |s| ==> 0.0 <= s[i] < 10_000_000.0) && (forall i :: 0 < i < |s| ==> IsInt(s[i]))
  }

  predicate IntLimbs(s: seq<real>) {
    forall i :: 0 <= i < |s| ==> 0.0 <= s[i] < 10_000_000.0 && IsInt(s[i])
  }

  /** The integer read off integral limbs. */
  function IntValue(s: seq<real>): int {
    if s == [] then 0 else s[0].Floor + 10000000 * IntValue(s[1..])
  }

  lemma {:induction false} IntValueExact(s: seq<real>)
    requires IntLimbs(s)
    ensures IntValue(s) >= 0 && Value(s) == IntValue(s) as real && Value(s) + 1.0 <= Shifted(1.0, |s|)
  {
    if s != [] {
      IntValueExact(s[1..]);
    }
  }

  lemma ValueRange(s: seq<real>)
    requires Limbs(s)
    ensures 0.0 <= Value(s) < Shifted(1.0, |s|)
  {
    if s != [] {
      IntValueExact(s[1..]);
    }
  }

  function Scaled(s: seq<real>, n: nat): (p: seq<real>)
    ensures |p| == |s| && forall i :: 0 <= i < |s| ==> p[i] == Times(n as real, s[i])
  {
    if s == [] then [] else [Times(n as real, s[0])] + Scaled(s[1..], n)
  }

  lemma {:induction false} ScaledValue(s: seq<real>, n: nat)
    ensures Value(Scaled(s, n)) == Times(n as real, Value(s))
  {
    hide Times;
    if s != [] {
      ScaledValue(s[1..], n);
      assert Scaled(s, n)[1..] == Scaled(s[1..], n);
      TimesDistributes(n as real, s[0], 10_000_000.0 * Value(s[1..]));
      TimesDistributes(n as real, s[0], Value(s[1..]));
    } else {
      TimesUnit(n as real);
    }
  }

  lemma ProductRange(n: nat, d: real)
    requires d >= 0.0
    ensures Times(n as real, d) >= 0.0
    ensures IsInt(d) ==> IsInt(Times(n as real, d))
  {
    if IsInt(d) {
      TimesInt(n, d.Floor);
    }
  }

  lemma ScaledRange(s: seq<real>, n: nat)
    requires forall i :: 0 <= i < |s| ==> s[i] >= 0.0
    ensures forall i :: 0 <= i < |s| ==> Scaled(s, n)[i] >= 0.0
    ensures forall i :: 0 <= i < |s| && IsInt(s[i]) ==> IsInt(Scaled(s, n)[i])
  {
    hide Scaled, Times;
    forall i | 0 <= i < |s|
      ensures Scaled(s, n)[i] >= 0.0 && (IsInt(s[i]) ==> IsInt(Scaled(s, n)[i]))
    {
      ProductRange(n, s[i]);
    }
  }

  /** The limb and the carry of an unnormalised limb. */
  function Low(t: real): real { t - 10_000_000.0 * (High(t) as real) }

  function High(t: real): int { (t / 10_000_000.0).Floor }

  /** Carry propagation over unnormalised limbs: the limbs and the final carry. */
  function Carried(p: seq<real>, c: real): (r: (seq<real>, real))
    ensures |r.0| == |p|
  {
    if p == [] then ([], c) else
      var rest := Carried(p[1..], High(c + p[0]) as real);
      ([Low(c + p[0])] + rest.0, rest.1)
  }

  lemma CarriedNothing(head: seq<real>, c: real)
    ensures head + Carried([], c).0 == head && Carried([], c).1 == c
  {
  }

  lemma CarriedLimb(head: seq<real>, p: seq<real>, i: nat, c: real)
    requires i < |p|
    ensures var t := c + p[i];
            var rest := Carried(p[i + 1..], High(t) as real);
            var r := Carried(p[i..], c);
            head + r.0 == (head + [Low(t)]) + rest.0 && r.1 == rest.1
  {
    assert p[i..][1..] == p[i + 1..] && p[i..][0] == p[i];
    var t := c + p[i];
    var rest := Carried(p[i + 1..], High(t) as real);
    assert head + ([Low(t)] + rest.0) == (head + [Low(t)]) + rest.0;
  }

  lemma {:induction false} CarriedValue(p: seq<real>, c: real)
    ensures var r := Carried(p, c);
            Value(r.0) + Shifted(r.1, |p|) == Value(p) + c
  {
    if p != [] {
      var rest := Carried(p[1..], High(c + p[0]) as real);
      CarriedValue(p[1..], High(c + p[0]) as real);
      assert Carried(p, c).0[1..] == rest.0;
    }
  }

  lemma CarryRange(t: real)
    requires t >= 0.0
    ensures 0.0 <= Low(t) < 10_000_000.0 && High(t) >= 0
    ensures IsInt(t) ==> IsInt(Low(t))
  {
    if IsInt(t) {
      assert Low(t) == (t.Floor - 10000000 * High(t)) as real;
    }
  }

  lemma {:induction false} CarriedInts(p: seq<real>, c: real)
    requires forall i :: 0 <= i < |p| ==> p[i] >= 0.0 && IsInt(p[i])
    requires c >= 0.0 && IsInt(c)
    ensures var r := Carried(p, c);
            IntLimbs(r.0) && r.1 >= 0.0 && IsInt(r.1)
  {
    if p != [] {
      var t := c + p[0];
      assert t == (c.Floor + p[0].Floor) as real;
      CarryRange(t);
      CarriedInts(p[1..], High(t) as real);
    }
  }

  lemma CarriedLimbs(p: seq<real>, c: real)
    requires p != [] && c >= 0.0
    requires forall i :: 0 <= i < |p| ==> p[i] >= 0.0
    requires forall i :: 0 < i < |p| ==> IsInt(p[i])
    ensures var r := Carried(p, c);
            Limbs(r.0) && r.1 >= 0.0 && IsInt(r.1)
  {
    CarryRange(c + p[0]);
    CarriedInts(p[1..], High(c + p[0]) as real);
  }

  /** Six limbs hold a number modulo 10^42. */
  function Wrap(v: real): real {
    v - 1_000_000_000_000_000_000_000_000_000_000_000_000_000_000.0 *
        ((v / 1_000_000_000_000_000_000_000_000_000_000_000_000_000_000.0).Floor as real)
  }

  lemma WrapUnique(a: real, r: real, q: real)
    requires IsInt(q) && 0.0 <= r < 1_000_000_000_000_000_000_000_000_000_000_000_000_000_000.0
    requires a == r + q * 1_000_000_000_000_000_000_000_000_000_000_000_000_000_000.0
    ensures Wrap(a) == r
  {
    assert (a / 1_000_000_000_000_000_000_000_000_000_000_000_000_000_000.0).Floor == q.Floor;
  }

  lemma WrapSmall(v: real)
    requires 0.0 <= v < 1_000_000_000_000_000_000_000_000_000_000_000_000_000_000.0
    ensures Wrap(v) == v
  {
    WrapUnique(v, v, 0.0);
  }

  lemma ShiftedSix(c: real)
    ensures Shifted(c, 6) == c * 1_000_000_000_000_000_000_000_000_000_000_000_000_000_000.0
  {
    assert Shifted(c, 1) == 10_000_000.0 * c;
    assert Shifted(c, 2) == 10_000_000.0 * Shifted(c, 1);
    assert Shifted(c, 3) == 10_000_000.0 * Shifted(c, 2);
    assert Shifted(c, 4) == 10_000_000.0 * Shifted(c, 3);
    assert Shifted(c, 5) == 10_000_000.0 * Shifted(c, 4);
    assert Shifted(c, 6) == 10_000_000.0 * Shifted(c, 5);
  }

  lemma MultipliedWraps(s: seq<real>, n: nat, c: real)
    requires Limbs(s) && |s| == SIZE && c >= 0.0
    ensures var r := Carried(Scaled(s, n), c);
            Limbs(r.0) && Value(r.0) == Wrap(Times(n as real, Value(s)) + c) &&
            (IntLimbs(s) && IsInt(c) ==> IntLimbs(r.0))
  {
    hide Value, Scaled, Carried, Shifted, Times, Wrap;
    var p := Scaled(s, n);
    var r := Carried(p, c);
    ScaledValue(s, n);
    ScaledRange(s, n);
    CarriedValue(p, c);
    CarriedLimbs(p, c);
    if IntLimbs(s) && IsInt(c) {
      CarriedInts(p, c);
    }
    ValueRange(r.0);
    ShiftedSix(1.0);
    ShiftedSix(r.1);
    WrapUnique(Times(n as real, Value(s)) + c, Value(r.0), r.1);
  }

  // ---------- Every intermediate number is exact in doubles ----------

  /** The i-th limb times n plus the carry into it. */
  function Total(s: seq<real>, n: nat, c: real, i: nat): real
    requires i < |s|
  {
    Times(n as real, s[i]) + if i == 0 then c else High(Total(s, n, c, i - 1)) as real
  }

  lemma {:induction false} TotalOfTail(s: seq<real>, n: nat, c: real, i: nat)
    requires i + 1 < |s|
    ensures Total(s, n, c, i + 1) == Total(s[1..], n, High(Total(s, n, c, 0)) as real, i)
  {
    hide Times, High;
    if i > 0 {
      TotalOfTail(s, n, c, i - 1);
    }
  }

  lemma {:induction false} CarriedTotal(s: seq<real>, n: nat, c: real, i: nat)
    requires i < |s|
    ensures Carried(Scaled(s, n), c).0[i] == Low(Total(s, n, c, i))
    decreases i
  {
    hide Times, High, Low, Carried, Scaled, Total;
    CarriedHead(s, n, c);
    if i > 0 {
      CarriedTotal(s[1..], n, High(Total(s, n, c, 0)) as real, i - 1);
      TotalOfTail(s, n, c, i - 1);
    }
  }

  lemma CarriedHead(s: seq<real>, n: nat, c: real)
    requires s != []
    ensures var t := Total(s, n, c, 0);
      Carried(Scaled(s, n), c).0 == [Low(t)] + Carried(Scaled(s[1..], n), High(t) as real).0
  {
    hide Times, High, Low;
    var p := Scaled(s, n);
    assert p[0] == Times(n as real, s[0]) && p[1..] == Scaled(s[1..], n);
  }

  /** Every limb is what its total leaves after the carry. */
  ghost predicate Totalled(t: seq<real>, s: seq<real>, n: nat, c: real) {
    |t| == |s| && forall i :: 0 <= i < |s| ==> t[i] == Low(Total(s, n, c, i))
  }

  lemma CarriedTotals(s: seq<real>, n: nat, c: real)
    ensures Totalled(Carried(Scaled(s, n), c).0, s, n, c)
  {
    hide Carried, Scaled, Total, Low;
    forall i | 0 <= i < |s|
      ensures Carried(Scaled(s, n), c).0[i] == Low(Total(s, n, c, i))
    {
      CarriedTotal(s, n, c, i);
    }
  }

  /** What toFixed multiplies by and adds: a significand put into an empty accumulator, or a factor up to 10^7 with at
      most 1. */
  predicate Moderate(n: nat, c: real) {
    (n == 0 && 0.0 <= c <= 9007199254740992.0) || (n <= 10000000 && 0.0 <= c <= 1.0)
  }

  lemma {:induction false} TotalsExact(s: seq<real>, n: nat, c: real, i: nat)
    requires Limbs(s) && Moderate(n, c) && i < |s|
    ensures 0.0 <= Times(n as real, s[i]) <= Total(s, n, c, i) <= 9007199254740992.0
    ensures 0 <= High(Total(s, n, c, i)) <= if n == 0 then 900719925 else 10000000
  {
    var before := if i == 0 then c else High(Total(s, n, c, i - 1)) as real;
    if i > 0 {
      TotalsExact(s, n, c, i - 1);
    }
    ProductBelow(n, s[i]);
    hide Times, High;
    var t := Total(s, n, c, i);
    assert 0.0 <= before <= if n == 0 then 9007199254740992.0 else 10_000_000.0;
    assert if n == 0 then t <= 9007199254740992.0 else t < 100_000_010_000_000.0;
    HighRange(t);
  }

  lemma HighRange(t: real)
    requires 0.0 <= t
    ensures 0 <= High(t)
    ensures t <= 9007199254740992.0 ==> High(t) <= 900719925
    ensures t < 100_000_010_000_000.0 ==> High(t) <= 10000000
  {
  }

  lemma ProductBelow(n: nat, d: real)
    requires 0.0 <= d < 10_000_000.0 && n <= 10000000
    ensures 0.0 <= Times(n as real, d) <= 10_000_000.0 * d
    ensures n == 0 ==> Times(n as real, d) == 0.0
  {
    TenMillionTimes(d);
    hide Times;
    TimesUnit(n as real);
    TimesUnit(d);
    if d > 0.0 {
      TimesMonotone(0.0, n as real, d);
      TimesMonotone(n as real, 10_000_000.0, d);
    }
  }

  lemma TenMillionTimes(d: real)
    ensures Times(10_000_000.0, d) == 10_000_000.0 * d
  {
  }

  /** What is left of the limbs from the top down to the first of s. */
  function Remainder(s: seq<real>, n: nat): real
    requires n > 0
  {
    if s == [] then 0.0 else Rem(Remainder(s[1..], n) * 10_000_000.0 + s[0], n as real)
  }

  /** What is divided at the i-th limb: the remainder from above, moved up, and the limb. */
  function Dividend(s: seq<real>, n: nat, i: nat): real
    requires n > 0 && i < |s|
  {
    Remainder(s[i + 1..], n) * 10_000_000.0 + s[i]
  }

  /** Every limb from the i-th on is the floor of its dividend by n. */
  ghost predicate Quotients(t: seq<real>, s: seq<real>, n: nat, i: nat)
    requires n > 0
  {
    |t| == |s| && forall k :: i <= k < |s| ==> t[k] == FloorDiv(Dividend(s, n, k), n as real) as real
  }

  lemma NoQuotients(t: seq<real>, s: seq<real>, n: nat)
    requires n > 0 && |t| == |s|
    ensures Quotients(t, s, n, |s|) && Remainder(s[|s|..], n) == 0.0
  {
  }

  lemma QuotientAdded(t: seq<real>, s: seq<real>, n: nat, i: nat, q: real)
    requires n > 0 && i < |s| && Quotients(t, s, n, i + 1)
    requires q == FloorDiv(Dividend(s, n, i), n as real) as real
    ensures Quotients(t[i := q], s, n, i)
    ensures Remainder(s[i..], n) == Rem(Dividend(s, n, i), n as real)
  {
    hide FloorDiv, Rem;
    assert s[i..][1..] == s[i + 1..] && s[i..][0] == s[i];
  }

  lemma RemainderRange(s: seq<real>, n: nat)
    requires n > 0
    ensures 0.0 <= Remainder(s, n) < n as real
  {
    hide Rem, FloorDiv;
    if s != [] {
      RemRange(Remainder(s[1..], n) * 10_000_000.0 + s[0], n as real);
    }
  }

  lemma DividendsExact(s: seq<real>, n: nat, i: nat)
    requires Limbs(s) && 0 < n <= 0x80_0000 && i < |s|
    ensures 0.0 <= Dividend(s, n, i) < 9007199254740992.0
    ensures 0 <= FloorDiv(Dividend(s, n, i), n as real) <= 9007199254740992
    ensures Times(n as real, FloorDiv(Dividend(s, n, i), n as real) as real) <= 9007199254740992.0
  {
    hide Rem, FloorDiv, Remainder, Times;
    var v := Dividend(s, n, i);
    RemainderRange(s[i + 1..], n);
    FloorIsQuotient(v, n as real);
    TimesMonotone(9007199254740992.0, 9007199254740993.0, n as real);
    AtMostTimes(v, n);
    QuotientInRange(FloorDiv(v, n as real), v, n as real, 9007199254740992);
    TimesCommutes(n as real, FloorDiv(v, n as real) as real);
  }

  lemma AtMostTimes(v: real, n: nat)
    requires n > 0 && 0.0 <= v < 9007199254740992.0
    ensures v < Times(9007199254740992.0, n as real)
  {
    assert 9007199254740992.0 * (n as real) >= 9007199254740992.0 * 1.0;
  }

  /** `Math.floor(c / n)` and `c % n`, where c is a remainder r moved up one limb plus the limb d. */
  method DivideLimb(c: real, n: nat, ghost r: real, ghost d: real) returns (q: real, m: real)
    requires n > 0 && 0.0 <= r < n as real && IsInt(r) && 0.0 <= d < 10_000_000.0 && c == r * 10_000_000.0 + d
    ensures 0.0 <= q < 10_000_000.0 && IsInt(q)
    ensures 0.0 <= m < n as real && c == Times(n as real, q) + m && (IsInt(d) ==> IsInt(m))
    ensures q == FloorDiv(c, n as real) as real && m == Rem(c, n as real)
  {
    hide Times, FloorDiv, IsQuotient;
    q := FloorDiv(c, n as real) as real;
    m := Rem(c, n as real);
    FloorIsQuotient(c, n as real);
    assert r.Floor <= n - 1;
    TimesInt(10000000, n);
    QuotientInRange(q.Floor, c, n as real, 10000000);
    RemRange(c, n as real);
    if IsInt(d) {
      assert c == (r.Floor * 10000000 + d.Floor) as real;
      RemInt(c.Floor, n);
    }
  }

  lemma DividedNothing(n: nat)
    ensures Value([]) == Value(Scaled([], n))
  {
  }

  lemma DividedLimb(s: seq<real>, Q: seq<real>, n: nat, d: real, r: real, q: real, m: real)
    requires Value(s) == Value(Scaled(Q, n)) + r && r * 10_000_000.0 + d == Times(n as real, q) + m
    ensures Value([d] + s) == Value(Scaled([q] + Q, n)) + m
  {
    hide Times;
    assert ([d] + s)[1..] == s && ([q] + Q)[1..] == Q;
    assert Scaled([q] + Q, n)[1..] == Scaled(Q, n);
  }

  lemma DividedIsFloor(s: seq<real>, n: nat, q: seq<real>, r: real)
    requires n > 0 && IntLimbs(q) && 0.0 <= r < n as real && Value(s) == Value(Scaled(q, n)) + r
    ensures Value(q) == FloorDiv(Value(s), n as real) as real
  {
    hide Value, Scaled, IntLimbs, Times, FloorDiv;
    ScaledValue(q, n);
    IntValueExact(q);
    TimesDistributes(n as real, Value(q), 1.0);
    TimesUnit(n as real);
    TimesCommutes(n as real, Value(q));
    QuotientIsFloor(IntValue(q), Value(s), n as real);
  }

  lemma TenSeven()
    ensures Ten(7) == 10000000
  {
    TenAdd(4, 3);
  }

  lemma LongerByLimb(high: nat, limb: nat)
    requires high > 0 && limb < 10000000
    ensures |Dec(limb)| <= 7
    ensures Dec(high) + Slice("0000000", 0, 7 - |Dec(limb)|) + Dec(limb) == Dec(high * 10000000 + limb)
  {
    hide Dec, Pad, Ten;
    TenSeven();
    DecLength(limb, 7);
    DecPads(limb, 7);
    var pad := Slice("0000000", 0, 7 - |Dec(limb)|);
    assert pad == Zeros(7 - |Dec(limb)|);
    DecSplits(high * 10000000 + limb, 7);
    PadIgnoresHigh(limb, high, 7);
    assert Dec(high) + pad + Dec(limb) == Dec(high) + (pad + Dec(limb));
  }

  /** The accumulator shared by all calls of the shim. */
  class Accumulator {
    const data: array<real>

    ghost predicate Valid()
      reads data
    {
      data.Length == SIZE && Limbs(data[..])
    }

    constructor ()
      ensures Valid() && fresh(data)
    {
      data := new real[SIZE](_ => 0.0);
    }

    /** v becomes (n * v + c) mod 10^42. */
    method Multiply(n: nat, c: real)
      requires Valid() && c >= 0.0
      modifies data
      ensures Valid()
      ensures Value(data[..]) == Wrap(Times(n as real, old(Value(data[..]))) + c)
      ensures old(IntLimbs(data[..])) && IsInt(c) ==> IntLimbs(data[..])
      ensures Totalled(data[..], old(data[..]), n, c)
    {
      hide Value, Wrap, Scaled, Limbs, IntLimbs, Carried, Low, High, Times, Totalled;
      ghost var was, p := data[..], Scaled(data[..], n);
      var i := -1;
      var c2 := c;
      assert p[0..] == p && data[..0] + Carried(p, c).0 == Carried(p, c).0;
      while i + 1 < SIZE
        invariant -1 <= i < SIZE
        invariant data[i + 1..] == was[i + 1..]
        invariant Carried(p, c) == (data[..i + 1] + Carried(p[i + 1..], c2).0, Carried(p[i + 1..], c2).1)
      {
        i := i + 1;
        assert data[i] == data[i..][0] == was[i] && p[i] == Times(n as real, data[i]);
        CarriedLimb(data[..i], p, i, c2);
        c2 := c2 + Times(n as real, data[i]);
        ghost var head := data[..i] + [Low(c2)];
        data[i] := Low(c2);
        c2 := High(c2) as real;
        assert data[..i + 1] == head;
        assert Carried(p, c).0 == head + Carried(p[i + 1..], c2).0;
      }
      assert data[..] == data[..SIZE] && p[SIZE..] == [];
      CarriedNothing(data[..], c2);
      MultipliedWraps(was, n, c);
      CarriedTotals(was, n, c);
    }

    /** v becomes floor(v / n). */
    method Divide(n: nat)
      requires Valid() && n > 0
      modifies data
      ensures Valid() && IntLimbs(data[..])
      ensures Value(data[..]) == FloorDiv(old(Value(data[..])), n as real) as real
      ensures Quotients(data[..], old(data[..]), n, 0)
    {
      hide Value, Scaled, Times, FloorDiv, Rem, Quotients;
      ghost var was := data[..];
      var i := SIZE;
      var c := 0.0;
      ghost var r := 0.0;
      DividedNothing(n);
      NoQuotients(data[..], was, n);
      while i - 1 >= 0
        invariant 0 <= i <= SIZE
        invariant data[..i] == was[..i] && IntLimbs(data[i..])
        invariant c == r * 10_000_000.0 && 0.0 <= r < n as real && (i > 0 ==> IsInt(r))
        invariant Value(was[i..]) == Value(Scaled(data[i..], n)) + r && r == Remainder(was[i..], n)
        invariant Quotients(data[..], was, n, i)
      {
        ghost var t := data[..];
        i := i - 1;
        assert data[i] == was[i] by { assert was[..i + 1][i] == data[..i + 1][i]; }
        assert was[i..] == [was[i]] + was[i + 1..];
        ghost var Q := data[i + 1..];
        var q, m := DivideLimb(c + data[i], n, r, data[i]);
        DividedLimb(was[i + 1..], Q, n, was[i], r, q, m);
        QuotientAdded(data[..], was, n, i, q);
        data[i] := q;
        assert data[..] == t[i := q];
        c := m * 10_000_000.0;
        r := m;
        assert data[..i] == was[..i] by { assert was[..i] == was[..i + 1][..i]; }
        assert data[i..] == [q] + Q;
      }
      assert data[0..] == data[..] && was[0..] == was;
      DividedIsFloor(was, n, data[..], r);
    }

    /** Prints v without spurious zeros. */
    method NumToString() returns (s: string)
      requires Valid() && IntLimbs(data[..])
      ensures IsInt(Value(data[..])) && Value(data[..]) >= 0.0
      ensures s == Dec(Value(data[..]).Floor)
    {
      hide Value, Dec, Slice;
      var i := SIZE;
      s := "";
      IntValueExact(data[..]);
      while i - 1 >= 0
        invariant 0 <= i <= SIZE
        invariant IntValue(data[i..]) >= 0
        invariant s == if i > 0 && IntValue(data[i..]) == 0 then "" else Dec(IntValue(data[i..]))
      {
        ghost var high := IntValue(data[i..]);
        i := i - 1;
        assert data[i..][1..] == data[i + 1..];
        ghost var limb := data[i].Floor;
        assert IntValue(data[i..]) == limb + 10000000 * high;
        if s != "" || i == 0 || data[i] != 0.0 {
          var t := Dec(data[i].Floor);
          if s == "" {
            s := t;
          } else {
            LongerByLimb(high, limb);
            s := s + Slice("0000000", 0, 7 - |t|) + t;
          }
        }
      }
      assert data[0..] == data[..];
    }
  }
}
