/** `toFixed` itself: scaling by powers of two and ten, repeated flooring
    division, and the layout of the digits. */
module ToFixed {
  import opened Decimal
  import opened ToFixedHelpers

  datatype Number = NaN | NegInfinity | PosInfinity | Finite(x: real)

  datatype FixedResult = Text(s: string) | RangeError | NumberToString(number: Number)

  // ---------- pow and log ----------

  /** acc times x^n, by squaring. */
  function Pow(x: real, n: nat, acc: real): real
    decreases n
  {
    if n == 0 then acc
    else if n % 2 == 1 then Pow(x, n - 1, Times(acc, x))
    else Pow(Times(x, x), n / 2, acc)
  }

  lemma {:induction false} ExpSquare(x: real, k: nat)
    ensures Exp(Times(x, x), k) == Exp(x, 2 * k)
  {
    hide Times;
    if k > 0 {
      ExpSquare(x, k - 1);
      assert Exp(x, 2 * k) == Times(x, Times(x, Exp(x, 2 * (k - 1))));
      TimesAssociative(x, x, Exp(x, 2 * (k - 1)));
    }
  }

  lemma {:induction false} PowIsExp(x: real, n: nat, acc: real)
    ensures Pow(x, n, acc) == Times(acc, Exp(x, n))
    decreases n
  {
    hide Times;
    if n == 0 {
      TimesUnit(acc);
    } else if n % 2 == 1 {
      PowIsExp(x, n - 1, Times(acc, x));
      TimesAssociative(acc, x, Exp(x, n - 1));
    } else {
      PowIsExp(Times(x, x), n / 2, acc);
      ExpSquare(x, n / 2);
    }
  }

  lemma MoveFactor(x2: real, y: real)
    ensures Times(x2, y) == Times(x2 / 2.0, Times(2.0, y)) == Times(x2 / 4096.0, Times(4096.0, y))
  {
  }

  lemma ExpTwelve(n: nat)
    ensures Exp(2.0, n + 12) == Times(4096.0, Exp(2.0, n))
  {
    ExpAdd(2.0, 12, n);
    ExpAdd(2.0, 6, 6);
    ExpAdd(2.0, 3, 3);
    assert Exp(2.0, 3) == 8.0;
  }

  lemma ExpZero()
    ensures Exp(2.0, 0) == 1.0
  {
  }

  lemma ExpNext(n: nat)
    ensures Exp(2.0, n + 1) == Times(2.0, Exp(2.0, n))
  {
  }

  /** The binary exponent of x, and 0 below 2. */
  method Log(x: real) returns (n: nat)
    requires x >= 0.0
    ensures x < 2.0 ==> n == 0
    ensures x >= 1.0 ==> Exp(2.0, n) <= x < Exp(2.0, n + 1)
  {
    hide Times, Exp;
    n := 0;
    var x2 := x;
    TimesUnit(x);
    ExpZero();
    while x2 >= 4096.0
      invariant x == Times(x2, Exp(2.0, n)) && x2 >= 0.0 && (x >= 1.0 ==> x2 >= 1.0)
      invariant x < 2.0 ==> x2 == x && n == 0
      decreases x2.Floor
    {
      ExpTwelve(n);
      MoveFactor(x2, Exp(2.0, n));
      assert x == Times(x2 / 4096.0, Exp(2.0, n + 12));
      n := n + 12;
      x2 := x2 / 4096.0;
    }
    while x2 >= 2.0
      invariant x == Times(x2, Exp(2.0, n)) && x2 >= 0.0 && (x >= 1.0 ==> x2 >= 1.0)
      invariant x < 2.0 ==> x2 == x && n == 0
      decreases x2.Floor
    {
      ExpNext(n);
      MoveFactor(x2, Exp(2.0, n));
      assert x == Times(x2 / 2.0, Exp(2.0, n + 1));
      n := n + 1;
      x2 := x2 / 2.0;
    }
    ExpNext(n);
    TimesMonotone(1.0, x2, Exp(2.0, n));
    TimesMonotone(x2, 2.0, Exp(2.0, n));
    TimesUnit(Exp(2.0, n));
  }

  // ---------- The specification ----------

  /** floor(x * 10^f + 1/2). */
  function Rounded(x: real, f: nat): int {
    (Times(x, Ten(f) as real) + 0.5).Floor
  }

  function Abs(x: real): real {
    if x < 0.0 then -x else x
  }

  function Fraction(n: int, f: nat): real {
    n as real / Ten(f) as real
  }

  /** Section 15.7.4.5, step 8: Rounded(x, f) / 10^f is as close to x as any k / 10^f, and the larger of two closest. */
  lemma RoundedIsNearest(x: real, f: nat, k: int)
    ensures var n := Rounded(x, f);
            Abs(Fraction(n, f) - x) < Abs(Fraction(k, f) - x) ||
            (Abs(Fraction(n, f) - x) == Abs(Fraction(k, f) - x) && k <= n)
  {
    hide Ten, Times, Fraction;
    var n, t := Rounded(x, f), Ten(f) as real;
    DistanceScaled(n, f, x);
    DistanceScaled(k, f, x);
    NearestInteger(Times(x, t), k);
    TimesMonotone(Abs(Fraction(n, f) - x), Abs(Fraction(k, f) - x), t);
    TimesMonotone(Abs(Fraction(k, f) - x), Abs(Fraction(n, f) - x), t);
  }

  lemma NearestInteger(y: real, k: int)
    ensures var n := (y + 0.5).Floor;
            Abs(n as real - y) < Abs(k as real - y) || (Abs(n as real - y) == Abs(k as real - y) && k <= n)
  {
  }

  lemma DistanceScaled(n: int, f: nat, x: real)
    ensures Abs(n as real - Times(x, Ten(f) as real)) == Times(Abs(Fraction(n, f) - x), Ten(f) as real)
  {
    hide Times, Ten;
    var q, t := Fraction(n, f), Ten(f) as real;
    TimesRatio(n as real, t);
    TimesDistributes(t, q, x);
    TimesDistributes(t, x, q);
    TimesDistributes(t, x - q, q - x);
    TimesMonotone(q, x, t);
    TimesMonotone(x, q, t);
    TimesDistributes(t, q, x);
  }

  /** The decimal with f fraction digits whose digits are those of n. */
  function FixedText(n: nat, f: nat): string {
    if f == 0 then Dec(n) else Dec(Quotient(n, Ten(f))) + "." + Pad(n, f)
  }

  lemma ValPadRem(n: nat, f: nat)
    ensures Quotient(n, Ten(f)) * Ten(f) + Val(Pad(n, f)) == n
  {
    hide Pad, Val, Ten;
    var q, r := n / Ten(f), n % Ten(f);
    assert n == q * Ten(f) + r;
    PadIgnoresHigh(r, q, f);
    ValPad(r, f);
  }

  /** Reading a fixed decimal back, without its point, gives n. */
  lemma FixedTextReads(n: nat, f: nat)
    ensures f == 0 ==> FixedText(n, f) == Dec(n) && Val(Dec(n)) == n
    ensures f > 0 ==>
              var text := FixedText(n, f);
              var k := |text| - f;
              k >= 2 && text[k - 1] == '.' &&
              exists high: Digits, low: Digits :: high == text[..k - 1] && low == text[k..] && Val(high + low) == n
  {
    hide Dec, Pad, Ten, Val;
    ValDec(n);
    if f > 0 {
      var high, low := Dec(Quotient(n, Ten(f))), Pad(n, f);
      var text := FixedText(n, f);
      assert text == high + ['.'] + low;
      assert text[..|text| - f - 1] == high && text[|text| - f..] == low;
      ValAppend(high, low);
      ValDec(Quotient(n, Ten(f)));
      ValPadRem(n, f);
      assert Val(high + low) == n;
    }
  }

  /** The digits argument as the shim rounds it. */
  function DigitCount(fd: Number): int {
    match fd
    case NaN => 0
    case Finite(d) => d.Floor
    case NegInfinity => -1
    case PosInfinity => 21
  }

  /** ToInteger of section 9.4, with the infinities out of range. */
  function ToInteger(fd: Number): int {
    match fd
    case NaN => 0
    case Finite(d) => if d < 0.0 then -((-d).Floor) else d.Floor
    case NegInfinity => -1
    case PosInfinity => 21
  }

  /** The shim floors where the standard truncates: they disagree about the
      range error exactly on the open interval (-1, 0), where the shim throws. */
  lemma DigitsRangeDeviation(fd: Number)
    ensures (0 <= DigitCount(fd) <= 20) == (0 <= ToInteger(fd) <= 20) <==> !(fd.Finite? && -1.0 < fd.x < 0.0)
    ensures 0 <= DigitCount(fd) <= 20 ==> DigitCount(fd) == ToInteger(fd)
  {
  }

  lemma RoundedNatural(x: real, f: nat)
    requires x >= 0.0
    ensures Rounded(x, f) >= 0
  {
    hide Times;
    TimesMonotone(0.0, x, Ten(f) as real);
    TimesUnit(Ten(f) as real);
  }

  function FixedSpec(number: Number, fd: Number): FixedResult {
    if !(0 <= DigitCount(fd) <= 20) then RangeError
    else if number.NaN? then Text("NaN")
    else if !number.Finite? || Abs(number.x) >= 1_000_000_000_000_000_000_000.0 then NumberToString(number)
    else
      RoundedNatural(Abs(number.x), DigitCount(fd));
      Text((if number.x < 0.0 then "-" else "") + FixedText(Rounded(Abs(number.x), DigitCount(fd)), DigitCount(fd)))
  }

  /** Which of the four results it is: the text of a decimal below 10^21, whose sign is that of the number. */
  lemma FixedCases(number: Number, fd: Number)
    ensures FixedSpec(number, fd).RangeError? <==> !(0 <= DigitCount(fd) <= 20)
    ensures 0 <= DigitCount(fd) <= 20 ==>
              var r := FixedSpec(number, fd);
              && (number.NaN? ==> r == Text("NaN"))
              && (r.NumberToString? <==>
                    !number.NaN? && (number.Finite? ==> number.x >= Ten(21) as real || -number.x >= Ten(21) as real))
              && (number.Finite? && -(Ten(21) as real) < number.x < Ten(21) as real ==>
                    r.Text? && r.s != "" && (r.s[0] == '-' <==> number.x < 0.0))
  {
    TenAdd(7, 7);
    TenAdd(14, 7);
    TenSeven();
    assert Ten(21) == 1000000000000000000000;
    hide Ten, Dec, Pad, Rounded;
    if number.Finite? && 0 <= DigitCount(fd) <= 20 {
      RoundedNatural(Abs(number.x), DigitCount(fd));
      DigitFirst(Rounded(Abs(number.x), DigitCount(fd)), DigitCount(fd));
    }
  }

  lemma DigitFirst(n: nat, f: nat)
    ensures FixedText(n, f) != "" && FixedText(n, f)[0] != '-'
  {
    hide Ten, Pad;
  }

  function Binary(m: nat, k: int): real {
    if k >= 0 then Times(m as real, Exp(2.0, k)) else m as real / Exp(2.0, -k)
  }

  /** A number with a 53-bit significand, as every finite double is. */
  ghost predicate IsDouble(x: real) {
    exists m: nat, k: int :: m < 0x20_0000_0000_0000 && Abs(x) == Binary(m, k)
  }

  // ---------- Rounding ----------

  /** w is v divided by a and rounded down, or still v itself. */
  predicate Reached(w: real, v: real, a: real) {
    (a == 1.0 && w == v) || (IsInt(w) && IsQuotient(w.Floor, v, a))
  }

  lemma DivideOnce(w: real, v: real, a: real, n: nat)
    requires a > 0.0 && n > 0 && Reached(w, v, a)
    ensures IsQuotient(FloorDiv(w, n as real), v, Times(a, n as real))
  {
    hide Times, FloorDiv, IsQuotient;
    var p := FloorDiv(w, n as real);
    FloorIsQuotient(w, n as real);
    if a == 1.0 && w == v {
      TimesUnit(n as real);
    } else {
      QuotientOfQuotient(p, w.Floor, v, a, n);
    }
  }

  /** Halving floor(2y) + 1 rounds y half up. */
  lemma HalveRoundsUp(q: int, y: real)
    requires q as real <= 2.0 * y < (q + 1) as real
    ensures FloorDiv((q + 1) as real, 2.0) == (y + 0.5).Floor
  {
    var p := (q + 1) / 2;
    assert FloorDiv((q + 1) as real, 2.0) == p;
    assert (y + 0.5).Floor == p;
  }

  lemma {:induction false} TenMonotone(a: nat, b: nat)
    requires a <= b
    ensures Ten(a) <= Ten(b)
  {
    if a < b {
      TenMonotone(a, b - 1);
    }
  }

  lemma TenTwenty()
    ensures Ten(20) == 100000000000000000000
  {
    TenSeven();
    TenAdd(7, 7);
    assert Ten(6) == 1000000 by { TenAdd(3, 3); }
    TenAdd(14, 6);
  }

  /** The scaled significand stays far below the capacity of the accumulator. */
  lemma Capacity(z: real, j: nat)
    requires 0.0 <= z <= 9007199254740992.0 && j <= 20
    ensures 0.0 <= Times(z, Ten(j) as real) <= 900719925474099200000000000000000000.0
  {
    hide Ten, Times;
    TenMonotone(j, 20);
    TenTwenty();
    var t := Ten(j) as real;
    TimesMonotone(0.0, z, t);
    TimesMonotone(z, 9007199254740992.0, t);
    TimesCommutes(9007199254740992.0, t);
    TimesMonotone(t, 100000000000000000000.0, 9007199254740992.0);
    TimesInt(100000000000000000000, 9007199254740992);
    TimesUnit(t);
  }

  lemma ScaleTen(z: real, a: nat, b: nat)
    ensures Times(Ten(b) as real, Times(z, Ten(a) as real)) == Times(z, Ten(a + b) as real)
  {
    hide Times, Ten;
    TimesCommutes(Ten(b) as real, Times(z, Ten(a) as real));
    TimesAssociative(z, Ten(a) as real, Ten(b) as real);
    TimesInt(Ten(a), Ten(b));
    TenAdd(a, b);
  }

  lemma {:induction false} ExpTen(k: nat)
    ensures Exp(10.0, k) == Ten(k) as real
  {
    hide Times;
    if k > 0 {
      ExpTen(k - 1);
      TimesInt(10, Ten(k - 1));
    }
  }

  /** `1 << j`, inside the range where a 32-bit shift does not wrap. */
  function ShiftLeft(j: nat): (p: nat)
    requires j < 31
    ensures p > 0
  {
    if j == 0 then 1 else 2 * ShiftLeft(j - 1)
  }

  lemma {:induction false} ShiftIsExp(j: nat)
    requires j < 31
    ensures ShiftLeft(j) as real == Exp(2.0, j)
  {
    hide Times;
    if j > 0 {
      ShiftIsExp(j - 1);
      TimesInt(2, ShiftLeft(j - 1));
    }
  }

  lemma {:induction false} ExpTwoInt(k: nat)
    ensures IsInt(Exp(2.0, k)) && Exp(2.0, k) >= 1.0
  {
    hide Times;
    if k > 0 {
      ExpTwoInt(k - 1);
      TimesInt(2, Exp(2.0, k - 1).Floor);
      assert Exp(2.0, k) == (2 * Exp(2.0, k - 1).Floor) as real;
    }
  }

  lemma Cancel(a: real, b: real, c: real)
    requires c > 0.0 && Times(a, c) == Times(b, c)
    ensures a == b
  {
    hide Times;
    TimesMonotone(a, b, c);
    TimesMonotone(b, a, c);
  }

  /** v / 2^(e-1), doubled back: the rounding argument y is v / 2^e. */
  lemma RoundingArgument(q: int, z: real, e: nat, f: nat)
    requires e > 0 && IsQuotient(q, Times(z, Ten(f) as real), Exp(2.0, e - 1))
    ensures var y := Times(z / Exp(2.0, e), Ten(f) as real);
            q as real <= 2.0 * y < (q + 1) as real
  {
    hide Times, Exp, Ten;
    var E, T := Exp(2.0, e - 1), Ten(f) as real;
    var x := z / Exp(2.0, e);
    ExpNext(e - 1);
    TimesRatio(z, Exp(2.0, e));
    var y := Times(x, T);
    Doubled(x, T, E, z);
    TimesMonotone(2.0 * y, q as real, E);
    TimesMonotone((q + 1) as real, 2.0 * y, E);
  }

  lemma Doubled(x: real, T: real, E: real, z: real)
    requires Times(x, Times(2.0, E)) == z
    ensures Times(2.0 * Times(x, T), E) == Times(z, T)
  {
    hide Times;
    TimesTwo(Times(x, T));
    TimesAssociative(2.0, Times(x, T), E);
    TimesAssociative(x, T, E);
    TimesCommutes(T, E);
    TimesAssociative(x, E, T);
    TimesAssociative(2.0, Times(x, E), T);
    TimesAssociative(2.0, x, E);
    TimesAssociative(x, 2.0, E);
    TimesCommutes(2.0, x);
  }

  lemma TimesTwo(a: real)
    ensures Times(2.0, a) == 2.0 * a
  {
  }

  lemma QuotientAtMost(q: int, v: real, d: real)
    requires d >= 1.0 && IsQuotient(q, v, d) && v >= 0.0
    ensures 0 <= q && q as real <= v
  {
    hide Times;
    TimesMonotone((q + 1) as real, 0.0, d);
    TimesUnit(d);
    if q >= 1 {
      TimesMonotone(1.0, d, q as real);
      TimesUnit(q as real);
      TimesCommutes(d, q as real);
    }
  }

  /** The significand put into the accumulator and multiplied by 10^f, seven digits at a time. */
  method ScaleUp(h: Accumulator, z: real, f: nat)
    requires h.Valid() && f <= 20 && 0.0 <= z <= 9007199254740992.0
    modifies h.data
    ensures h.Valid() && Value(h.data[..]) == Times(z, Ten(f) as real)
  {
    hide Times, Exp, Ten, Wrap, Value, Limbs, IntLimbs, Pow, Totalled;
    TimesUnit(Value(h.data[..]));
    WrapSmall(z);
    h.Multiply(0, z);
    var j := f;
    TenZeroSeven();
    TimesUnit(z);
    while j >= 7
      invariant 0 <= j <= f && h.Valid() && Value(h.data[..]) == Times(z, Ten(f - j) as real)
    {
      ScaleTen(z, f - j, 7);
      Capacity(z, f - j + 7);
      WrapSmall(Times(z, Ten(f - j + 7) as real));
      h.Multiply(10000000, 0.0);
      j := j - 7;
    }
    PowIsExp(10.0, j, 1.0);
    ExpTen(j);
    TimesUnit(Exp(10.0, j));
    ScaleTen(z, f - j, j);
    Capacity(z, f);
    WrapSmall(Times(z, Ten(f) as real));
    h.Multiply(Pow(10.0, j, 1.0).Floor, 0.0);
  }

  /** The case e > 0: the numeral of z * 10^f / 2^e, rounded half up. */
  method RoundedDigits(h: Accumulator, z: real, e: nat, f: nat) returns (m: string)
    requires h.Valid() && 0 < e && f <= 20 && 0.0 <= z <= 9007199254740992.0
    modifies h.data
    ensures h.Valid() && IntLimbs(h.data[..])
    ensures Rounded(z / Exp(2.0, e), f) >= 0 && m == Dec(Rounded(z / Exp(2.0, e), f))
  {
    hide Times, Exp, Ten, Wrap, Value, Limbs, IntLimbs, FloorDiv, IsQuotient, Dec, Pow, Totalled, Quotients;
    ScaleUp(h, z, f);
    ghost var v := Times(z, Ten(f) as real);
    ExpZero();
    Capacity(z, f);
    var j := e - 1;
    while j >= 23
      invariant 0 <= j < e && h.Valid() && Reached(Value(h.data[..]), v, Exp(2.0, e - 1 - j))
    {
      DivideOnce(Value(h.data[..]), v, Exp(2.0, e - 1 - j), ShiftLeft(23));
      ShiftIsExp(23);
      ExpAdd(2.0, e - 1 - j, 23);
      h.Divide(ShiftLeft(23));
      j := j - 23;
    }
    DivideOnce(Value(h.data[..]), v, Exp(2.0, e - 1 - j), ShiftLeft(j));
    ShiftIsExp(j);
    ExpAdd(2.0, e - 1 - j, j);
    h.Divide(ShiftLeft(j));
    ghost var q := Value(h.data[..]).Floor;
    assert IsQuotient(q, v, Exp(2.0, e - 1));
    RoundingArgument(q, z, e, f);
    ExpTwoInt(e - 1);
    QuotientAtMost(q, v, Exp(2.0, e - 1));
    TimesUnit(q as real);
    WrapSmall((q + 1) as real);
    h.Multiply(1, 1.0);
    HalveRoundsUp(q, Times(z / Exp(2.0, e), Ten(f) as real));
    h.Divide(2);
    m := h.NumToString();
  }

  lemma TenZeroSeven()
    ensures Ten(0) == 1 && Ten(7) == 10000000
  {
    TenSeven();
  }

  lemma DecShift(v: nat, f: nat)
    requires v > 0
    ensures Dec(v * Ten(f)) == Dec(v) + Zeros(f)
  {
    hide Dec, Pad, Ten;
    var t := Ten(f);
    assert v * t >= t;
    DecSplits(v * t, f);
    PadIgnoresHigh(0, v, f);
    PadZero(f);
    DivUnique(v * t, t, v, 0);
  }

  lemma RoundedInt(v: int, f: nat)
    ensures Rounded(v as real, f) == v * Ten(f)
  {
    hide Times, Ten;
    TimesInt(v, Ten(f));
  }

  /** The case e <= 0: the numeral of the integer z * 2^k, followed by f zeros. */
  method ShiftedDigits(h: Accumulator, z: real, k: nat, f: nat) returns (m: string)
    requires h.Valid() && IntLimbs(h.data[..]) && k <= 17 && f <= 20
    requires 0.0 < z <= 9007199254740992.0 && IsInt(z)
    modifies h.data
    ensures h.Valid() && IntLimbs(h.data[..])
    ensures var x := Times(z, Exp(2.0, k)); Rounded(x, f) >= 0 && m == Dec(Rounded(x, f))
  {
    hide Times, Exp, Ten, Wrap, Value, Limbs, IntLimbs, Dec, Totalled, Quotients;
    TimesUnit(Value(h.data[..]));
    WrapSmall(z);
    h.Multiply(0, z);
    ShiftIsExp(k);
    ghost var v := ShiftLeft(k) * z.Floor;
    TimesInt(ShiftLeft(k), z.Floor);
    TimesCommutes(z, Exp(2.0, k));
    ShiftBounded(k, z.Floor);
    WrapSmall(v as real);
    h.Multiply(ShiftLeft(k), 0.0);
    m := h.NumToString();
    m := m + Slice("0.00000000000000000000", 2, 2 + f);
    assert Slice("0.00000000000000000000", 2, 2 + f) == Zeros(f);
    DecShift(v, f);
    RoundedInt(v, f);
  }

  lemma ShiftBounded(k: nat, z: nat)
    requires k <= 17 && 0 < z <= 9007199254740992
    ensures 0 < ShiftLeft(k) * z <= 1180591620717411303424
  {
    ShiftMonotone(k, 17);
    ShiftAdd(3, 3);
    assert ShiftLeft(3) == 8;
    ShiftAdd(6, 6);
    ShiftAdd(12, 5);
    assert ShiftLeft(5) == 32 by { ShiftAdd(3, 2); assert ShiftLeft(2) == 4; }
    MulAtMost(ShiftLeft(k), 131072, z);
  }

  lemma MulAtMost(p: nat, q: nat, z: nat)
    requires 0 < p <= q && 0 < z
    ensures 0 < p * z <= q * z
  {
  }

  lemma {:induction false} ShiftMonotone(a: nat, b: nat)
    requires a <= b < 31
    ensures ShiftLeft(a) <= ShiftLeft(b)
  {
    if a < b {
      ShiftMonotone(a, b - 1);
    }
  }

  lemma {:induction false} ExpMonotone(a: nat, b: nat)
    requires a <= b
    ensures Exp(2.0, a) <= Exp(2.0, b)
  {
    hide Times;
    if a < b {
      ExpMonotone(a, b - 1);
      TimesTwo(Exp(2.0, b - 1));
    }
  }

  lemma ShiftAdd(a: nat, b: nat)
    requires a + b < 31
    ensures ShiftLeft(a + b) == ShiftLeft(a) * ShiftLeft(b)
  {
    hide Times;
    ShiftIsExp(a);
    ShiftIsExp(b);
    ShiftIsExp(a + b);
    ExpAdd(2.0, a, b);
    TimesInt(ShiftLeft(a), ShiftLeft(b));
  }

  lemma ExpTwentySix()
    ensures Exp(2.0, 26) == 67108864.0 && Exp(2.0, 18) == 262144.0
  {
    ShiftAdd(3, 3);
    assert ShiftLeft(3) == 8 && ShiftLeft(2) == 4;
    ShiftAdd(6, 6);
    ShiftAdd(12, 6);
    ShiftAdd(18, 6);
    ShiftAdd(24, 2);
    ShiftIsExp(26);
    ShiftIsExp(18);
  }

  lemma ExpFiftyThree()
    ensures Exp(2.0, 52) == 4503599627370496.0 && Exp(2.0, 53) == 9007199254740992.0
    ensures Exp(2.0, 70) == 1180591620717411303424.0
  {
    hide Times, Exp;
    ExpTwentySix();
    ExpAdd(2.0, 26, 26);
    TimesInt(67108864, 67108864);
    ExpNext(52);
    TimesInt(2, 4503599627370496);
    ExpAdd(2.0, 52, 18);
    TimesInt(4503599627370496, 262144);
  }

  /** A double in [2^E, 2^(E+1)) with E >= 52 is a whole multiple of 2^(E-52). */
  lemma SignificandIsInt(m: nat, k: int, x: real, E: nat)
    requires m < 0x20_0000_0000_0000 && x == Binary(m, k) && 52 <= E && Exp(2.0, E) <= x
    ensures IsInt(x / Exp(2.0, E - 52))
  {
    hide Times, Exp;
    var d := E - 52;
    ExpFiftyThree();
    if k >= d {
      ExpAdd(2.0, k - d, d);
      ExpTwoInt(k - d);
      var s := Exp(2.0, k - d).Floor;
      TimesInt(m, s);
      TimesAssociative(m as real, s as real, Exp(2.0, d));
      TimesRatio(x, Exp(2.0, d));
      Cancel(x / Exp(2.0, d), (m * s) as real, Exp(2.0, d));
    } else if k >= 0 {
      TimesMonotone(m as real, 9007199254740992.0, Exp(2.0, k));
      ExpAdd(2.0, 53, k);
      ExpMonotone(53 + k, E);
      assert false;
    } else {
      var w := Exp(2.0, -k);
      TimesRatio(m as real, w);
      ExpMonotone(1, -k);
      ExpNext(0);
      ExpZero();
      TimesTwo(1.0);
      TimesMonotone(2.0, w, x);
      TimesCommutes(w, x);
      TimesTwo(x);
      ExpMonotone(52, E);
      assert false;
    }
  }

  /** The scaled significand z, its exponent n - 69, and x are related exactly. */
  lemma SignificandExact(x: real, n: nat, z: real)
    requires 0.0 <= x
    requires z == Times(if n < 69 then Times(x, Exp(2.0, 69 - n)) else x / Exp(2.0, n - 69), Exp(2.0, 52))
    ensures Times(z, Exp(2.0, n)) == Times(x, Exp(2.0, 121))
  {
    hide Times, Exp;
    var w := if n < 69 then Times(x, Exp(2.0, 69 - n)) else x / Exp(2.0, n - 69);
    if n < 69 {
      TimesAssociative(x, Exp(2.0, 69 - n), Exp(2.0, n));
      ExpAdd(2.0, 69 - n, n);
    } else {
      TimesRatio(x, Exp(2.0, n - 69));
      ExpAdd(2.0, n - 69, 69);
      TimesAssociative(w, Exp(2.0, n - 69), Exp(2.0, 69));
    }
    assert Times(w, Exp(2.0, n)) == Times(x, Exp(2.0, 69));
    TimesAssociative(w, Exp(2.0, 52), Exp(2.0, n));
    TimesCommutes(Exp(2.0, 52), Exp(2.0, n));
    TimesAssociative(w, Exp(2.0, n), Exp(2.0, 52));
    TimesAssociative(x, Exp(2.0, 69), Exp(2.0, 52));
    ExpAdd(2.0, 69, 52);
  }

  lemma SignificandLow(x: real, n: nat, z: real)
    requires 0.0 <= x && n < 121 && Times(z, Exp(2.0, n)) == Times(x, Exp(2.0, 121))
    ensures x == z / Exp(2.0, 121 - n)
  {
    hide Times, Exp;
    var e := 121 - n;
    ExpAdd(2.0, e, n);
    TimesAssociative(x, Exp(2.0, e), Exp(2.0, n));
    Cancel(Times(x, Exp(2.0, e)), z, Exp(2.0, n));
    TimesRatio(z, Exp(2.0, e));
    Cancel(x, z / Exp(2.0, e), Exp(2.0, e));
  }

  lemma SignificandHigh(x: real, n: nat, z: real)
    requires 0.0 <= x && n >= 121 && Times(z, Exp(2.0, n)) == Times(x, Exp(2.0, 121))
    ensures x == Times(z, Exp(2.0, n - 121)) && z == x / Exp(2.0, n - 121)
  {
    hide Times, Exp;
    var k := n - 121;
    ExpAdd(2.0, k, 121);
    TimesAssociative(z, Exp(2.0, k), Exp(2.0, 121));
    Cancel(Times(z, Exp(2.0, k)), x, Exp(2.0, 121));
    TimesRatio(x, Exp(2.0, k));
    Cancel(z, x / Exp(2.0, k), Exp(2.0, k));
  }

  lemma SignificandRange(x: real, n: nat, z: real)
    requires 0.0 < x && Times(z, Exp(2.0, n)) == Times(x, Exp(2.0, 121))
    requires Times(x, Exp(2.0, 69)) < Exp(2.0, n + 1)
    ensures 0.0 < z <= 9007199254740992.0
  {
    hide Times, Exp;
    ExpFiftyThree();
    ExpAdd(2.0, 69, 52);
    TimesAssociative(x, Exp(2.0, 69), Exp(2.0, 52));
    TimesMonotone(Times(x, Exp(2.0, 69)), Exp(2.0, n + 1), Exp(2.0, 52));
    ExpAdd(2.0, n + 1, 52);
    ExpAdd(2.0, 53, n);
    TimesMonotone(9007199254740992.0, z, Exp(2.0, n));
    TimesMonotone(z, 0.0, Exp(2.0, n));
    TimesMonotone(0.0, x, Exp(2.0, 121));
    TimesUnit(Exp(2.0, n));
    TimesUnit(Exp(2.0, 121));
  }

  lemma ExponentRange(x: real, n: nat)
    requires 0.0 <= x < 1_000_000_000_000_000_000_000.0 && Exp(2.0, n) <= Times(x, Exp(2.0, 69))
    ensures n <= 138
  {
    hide Times, Exp;
    if n > 138 {
      ExpMonotone(139, n);
      ExpAdd(2.0, 70, 69);
      ExpFiftyThree();
      TimesMonotone(x, 1180591620717411303424.0, Exp(2.0, 69));
    }
  }

  lemma TinyRoundsToZero(x: real, f: nat)
    requires 0.0 <= x <= 1.0 / 1_000_000_000_000_000_000_000.0 && f <= 20
    ensures Rounded(x, f) == 0
  {
    hide Times, Ten;
    TenMonotone(f, 20);
    TenTwenty();
    var t := Ten(f) as real;
    TimesCommutes(x, t);
    TimesMonotone(0.0, x, t);
    TimesUnit(t);
    TimesMonotone(x, 1.0 / 1_000_000_000_000_000_000_000.0, t);
    TimesTiny(t);
  }

  lemma TimesTiny(t: real)
    requires 0.0 < t <= 100000000000000000000.0
    ensures Times(1.0 / 1_000_000_000_000_000_000_000.0, t) < 0.5
  {
  }

  /** The final layout of the digits, with padding in front of short numerals. */
  function Layout(s: string, m: string, f: nat): string {
    var k := |m|;
    if f > 0 then
      if k <= f then s + Slice("0.0000000000000000000", 0, f - k + 2) + m
      else s + Slice(m, 0, k - f) + "." + Slice(m, k - f, k)
    else s + m
  }

  lemma LayoutIsFixedText(s: string, n: nat, f: nat)
    requires f <= 20
    ensures Layout(s, Dec(n), f) == s + FixedText(n, f)
  {
    hide Dec, Pad, Ten, Slice;
    if f > 0 {
      DecLength(n, f);
      if |Dec(n)| <= f {
        ShortLayout(s, n, f);
      } else {
        LongLayout(s, n, f);
      }
    }
  }

  lemma ShortLayout(s: string, n: nat, f: nat)
    requires 0 < f <= 20 && |Dec(n)| <= f && n < Ten(f)
    ensures s + Slice("0.0000000000000000000", 0, f - |Dec(n)| + 2) + Dec(n) == s + FixedText(n, f)
  {
    LeadingZeros(f - |Dec(n)|);
    SmallFixed(n, f);
    hide Dec, Pad, Ten, Slice, FixedText;
    var zeros: string := Zeros(f - |Dec(n)|);
    DecPads(n, f);
    assert s + ("0." + zeros) + Dec(n) == s + ("0." + (zeros + Dec(n)));
  }

  lemma LeadingZeros(k: nat)
    requires k <= 19
    ensures Slice("0.0000000000000000000", 0, k + 2) == "0." + Zeros(k)
  {
  }

  lemma SmallFixed(n: nat, f: nat)
    requires 0 < f && n < Ten(f)
    ensures FixedText(n, f) == "0." + Pad(n, f)
  {
    hide Dec, Pad, Ten;
    assert Quotient(n, Ten(f)) == 0 by {
      DivUnique(n, Ten(f), 0, n);
    }
    DecZero();
    assert "0" + "." + Pad(n, f) == "0." + Pad(n, f);
  }

  lemma LongLayout(s: string, n: nat, f: nat)
    requires 0 < f <= 20 && |Dec(n)| > f && n >= Ten(f)
    ensures var m := Dec(n);
            s + Slice(m, 0, |m| - f) + "." + Slice(m, |m| - f, |m|) == s + FixedText(n, f)
  {
    hide Dec, Pad, Ten;
    DecSplits(n, f);
    var m, high, low := Dec(n), Dec(Quotient(n, Ten(f))), Pad(n, f);
    assert m == high + low;
    assert Slice(m, 0, |m| - f) == high && Slice(m, |m| - f, |m|) == low;
    assert s + high + "." + low == s + (high + "." + low);
  }

  lemma DecZero()
    ensures Dec(0) == "0"
  {
  }

  /** `toFixed` on the number x with the argument fractionDigits. */
  method ToFixed(h: Accumulator, number: Number, fractionDigits: Number) returns (r: FixedResult)
    requires h.Valid() && IntLimbs(h.data[..])
    requires number.Finite? ==> IsDouble(number.x)
    modifies h.data
    ensures h.Valid() && IntLimbs(h.data[..])
    ensures r == FixedSpec(number, fractionDigits)
  {
    hide Times, Exp, Ten, Dec, FixedText, IntLimbs, Limbs;
    var f := DigitCount(fractionDigits);
    if f < 0 || f > 20 {
      return RangeError;
    }
    if number.NaN? {
      return Text("NaN");
    }
    if !number.Finite? || number.x <= -1_000_000_000_000_000_000_000.0 || number.x >= 1_000_000_000_000_000_000_000.0 {
      return NumberToString(number);
    }
    var x := number.x;
    var s := "";
    if x < 0.0 {
      s := "-";
      x := -x;
    }
    assert x == Abs(number.x);
    RoundedNatural(x, f);
    var m := "0";
    DecZero();
    if x > 1.0 / 1_000_000_000_000_000_000_000.0 {
      m := Numeral(h, x, f);
    } else {
      TinyRoundsToZero(x, f);
    }
    LayoutIsFixedText(s, Rounded(x, f), f);
    r := Text(Layout(s, m, f));
  }

  /** `log(x * pow(2, 69, 1))`: 69 more than the binary exponent of x, or 0 for x below 2^-68. */
  method Exponent(x: real) returns (n: nat)
    requires 0.0 < x < 1_000_000_000_000_000_000_000.0
    ensures Times(x, Exp(2.0, 69)) < Exp(2.0, n + 1)
    ensures n >= 1 ==> Exp(2.0, n) <= Times(x, Exp(2.0, 69))
    ensures n >= 69 ==> Exp(2.0, n - 69) <= x && n <= 138
  {
    hide Times, Exp, Pow;
    PowIsExp(2.0, 69, 1.0);
    TimesUnit(Exp(2.0, 69));
    TimesMonotone(0.0, x, Exp(2.0, 69));
    n := Log(Times(x, Pow(2.0, 69, 1.0)));
    ExpNext(0);
    ExpZero();
    TimesTwo(1.0);
    if n >= 69 {
      ExponentRange(x, n);
      ExponentLow(x, n);
    }
  }

  /** x scaled so that its 53 significant bits are an integer. */
  function Significand(x: real, e: int): real {
    Times(if e < 0 then Times(x, Pow(2.0, -e, 1.0)) else SafeRatio(x, Pow(2.0, e, 1.0)), 4503599627370496.0)
  }

  function SafeRatio(x: real, d: real): real {
    if d == 0.0 then x else x / d
  }

  lemma SignificandOf(x: real, n: nat)
    requires 0.0 < x && Times(x, Exp(2.0, 69)) < Exp(2.0, n + 1)
    ensures var z := Significand(x, n - 69);
            0.0 < z <= 9007199254740992.0 && Times(z, Exp(2.0, n)) == Times(x, Exp(2.0, 121))
  {
    hide Times, Exp, Pow;
    var e: int := n - 69;
    var k := if e < 0 then -e else e;
    PowIsExp(2.0, k, 1.0);
    TimesUnit(Exp(2.0, k));
    ExpFiftyThree();
    SignificandExact(x, n, Significand(x, e));
    SignificandRange(x, n, Significand(x, e));
  }

  /** The digits of x * 10^f rounded, for x above the cut-off. */
  method Numeral(h: Accumulator, x: real, f: nat) returns (m: string)
    requires h.Valid() && IntLimbs(h.data[..]) && f <= 20
    requires 0.0 < x < 1_000_000_000_000_000_000_000.0 && IsDouble(x)
    modifies h.data
    ensures h.Valid() && IntLimbs(h.data[..])
    ensures Rounded(x, f) >= 0 && m == Dec(Rounded(x, f))
  {
    hide Times, Exp, Ten, Dec, Rounded, IntLimbs, Limbs, Significand;
    var n := Exponent(x);
    SignificandOf(x, n);
    var e: int := n as int - 69;
    var z := Significand(x, e);
    e := 52 - e;
    if e > 0 {
      SignificandLow(x, n, z);
      m := RoundedDigits(h, z, e, f);
    } else {
      SignificandHigh(x, n, z);
      ghost var M, K :| M < 0x20_0000_0000_0000 && Abs(x) == Binary(M, K);
      SignificandIsInt(M, K, x, n - 69);
      m := ShiftedDigits(h, z, -e, f);
    }
  }

  lemma ExponentLow(x: real, n: nat)
    requires n >= 69 && Exp(2.0, n) <= Times(x, Exp(2.0, 69))
    ensures Exp(2.0, n - 69) <= x
  {
    hide Times, Exp;
    ExpAdd(2.0, n - 69, 69);
    TimesMonotone(x, Exp(2.0, n - 69), Exp(2.0, 69));
  }
}
