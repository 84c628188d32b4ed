/** Decimal numerals as the JavaScript sources print, slice and read them. */
module Decimal {
  type Digits = s: string | forall i :: 0 <= i < |s| ==> '0' <= s[i] <= '9'

  function Digit(d: nat): (c: char)
    requires d < 10
    ensures '0' <= c <= '9' && c as int == '0' as int + d
  {
    ('0' as int + d) as char
  }

  /** `$String(n)` of a natural number. */
  function Dec(n: nat): (s: Digits)
    ensures |s| >= 1
  {
    if n < 10 then [Digit(n)] else Dec(n / 10) + [Digit(n % 10)]
  }

  function Zeros(k: nat): (s: Digits)
    ensures |s| == k && forall i :: 0 <= i < k ==> s[i] == '0'
  {
    seq(k, _ => '0')
  }

  /** The last `w` decimal digits of `n`. */
  function Pad(n: nat, w: nat): (s: Digits)
    ensures |s| == w
  {
    if w == 0 then [] else Pad(n / 10, w - 1) + [Digit(n % 10)]
  }

  /** `$Number(s)` of a digit string. */
  function Val(s: Digits): nat {
    if s == [] then 0 else Val(s[..|s| - 1]) * 10 + (s[|s| - 1] as int - '0' as int)
  }

  function Ten(k: nat): (p: nat)
    ensures p > 0
  {
    if k == 0 then 1 else 10 * Ten(k - 1)
  }

  function Quotient(n: nat, d: nat): nat
    requires d > 0
  {
    n / d
  }

  lemma {:induction false} TenAdd(a: nat, b: nat)
    ensures Ten(a + b) == Ten(a) * Ten(b)
  {
    if a > 0 {
      TenAdd(a - 1, b);
    }
  }

  lemma DivUnique(n: int, m: int, q: int, r: int)
    requires m > 0 && 0 <= r < m && n == m * q + r
    ensures n / m == q && n % m == r
  {
    var d := n / m - q;
    assert m * d == r - n % m;
    assert d >= 1 ==> m * d >= m;
    assert d <= -1 ==> m * d <= -m;
  }

  lemma NestedQuotient(n: int, a: int, b: int, q: int, r: int, p: int, t: int)
    requires a > 0 && n == a * q + r && 0 <= r < a && q == b * p + t && 0 <= t < b
    ensures n == (a * b) * p + (a * t + r) && 0 <= a * t + r < a * b
  {
    assert a * (b * p + t) == (a * b) * p + a * t;
    assert a * t <= a * (b - 1) == a * b - a;
  }

  lemma DivDiv(n: nat, a: nat, b: nat)
    requires a > 0 && b > 0
    ensures a * b > 0 && n / a / b == n / (a * b)
  {
    var q, r := n / a, n % a;
    var p, t := q / b, q % b;
    NestedQuotient(n, a, b, q, r, p, t);
    DivUnique(n, a * b, p, a * t + r);
  }

  lemma {:induction false} PadZero(w: nat)
    ensures Pad(0, w) == Zeros(w)
  {
    if w > 0 {
      PadZero(w - 1);
    }
  }

  /** Zero padding a short numeral gives the fixed-width one. */
  lemma {:induction false} DecPads(n: nat, w: nat)
    requires |Dec(n)| <= w
    ensures Zeros(w - |Dec(n)|) + Dec(n) == Pad(n, w)
  {
    if n < 10 {
      PadZero(w - 1);
    } else {
      DecPads(n / 10, w - 1);
    }
  }

  lemma {:induction false} DecLength(n: nat, w: nat)
    requires w >= 1
    ensures |Dec(n)| <= w <==> n < Ten(w)
  {
    if n < 10 {
      TenAdd(w - 1, 1);
    } else if w == 1 {
    } else {
      DecLength(n / 10, w - 1);
    }
  }

  /** A long numeral splits into the numeral of its quotient and the digits of its remainder. */
  lemma {:induction false} DecSplits(n: nat, w: nat)
    requires n >= Ten(w)
    ensures Dec(n) == Dec(n / Ten(w)) + Pad(n, w)
    decreases w
  {
    if w > 0 {
      DecSplits(n / 10, w - 1);
      DivDiv(n, 10, Ten(w - 1));
      assert Dec(n) == (Dec(n / Ten(w)) + Pad(n / 10, w - 1)) + [Digit(n % 10)];
    }
  }

  lemma {:induction false} PadIgnoresHigh(n: nat, h: nat, w: nat)
    ensures Pad(h * Ten(w) + n, w) == Pad(n, w)
  {
    if w > 0 {
      var m := h * Ten(w) + n;
      assert m == 10 * (h * Ten(w - 1)) + n;
      assert m / 10 == h * Ten(w - 1) + n / 10 && m % 10 == n % 10;
      PadIgnoresHigh(n / 10, h, w - 1);
    }
  }

  lemma {:induction false} ValPad(n: nat, w: nat)
    requires n < Ten(w)
    ensures Val(Pad(n, w)) == n
  {
    if w > 0 {
      ValPad(n / 10, w - 1);
      assert Pad(n, w)[..w - 1] == Pad(n / 10, w - 1);
    }
  }

  lemma {:induction false} ValDec(n: nat)
    ensures Val(Dec(n)) == n
  {
    if n >= 10 {
      ValDec(n / 10);
      assert Dec(n)[..|Dec(n)| - 1] == Dec(n / 10);
    } else {
      assert Dec(n)[..0] == [];
    }
  }

  lemma {:induction false} ValAppend(a: Digits, b: Digits)
    ensures Val(a + b) == Val(a) * Ten(|b|) + Val(b)
  {
    if b == [] {
      assert a + b == a;
    } else {
      var b' := b[..|b| - 1];
      ValAppend(a, b');
      assert (a + b)[..|a + b| - 1] == a + b';
      assert Ten(|b|) == 10 * Ten(|b'|);
      var d := b[|b| - 1] as int - '0' as int;
      assert Val(a + b) == Val(a + b') * 10 + d;
      assert Val(a) * Ten(|b|) == (Val(a) * Ten(|b'|)) * 10;
    }
  }

  /** `String.prototype.slice(start, end)` with its clamping of both ends. */
  function Slice(s: string, start: int, end: int): string {
    var from := if start < 0 then (if |s| + start > 0 then |s| + start else 0) else if start < |s| then start else |s|;
    var to := if end < 0 then (if |s| + end > 0 then |s| + end else 0) else if end < |s| then end else |s|;
    if from < to then s[from..to] else ""
  }
}
