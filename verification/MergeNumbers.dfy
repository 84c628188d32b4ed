/** What a merged function prints when its chunks need not be strings: `+` adds two numbers. */
module MergeNumbers {
  import opened Wrappers
  import opened Decimal
  import M = MergeSource

  // ---------- Values ----------

  /** A string, an integer or a boolean; `+` takes a boolean for 0 or 1 when it adds. */
  datatype Value = Text(text: string) | Number(n: int) | Bool(b: bool)

  function Signed(n: int): string { if n < 0 then "-" + Dec(-n) else Dec(n) }

  function Shown(v: Value): string {
    match v
    case Text(s) => s
    case Number(n) => Signed(n)
    case Bool(b) => if b then "true" else "false"
  }

  function AsNumber(v: Value): int
    requires !v.Text?
  {
    if v.Number? then v.n else if v.b then 1 else 0
  }

  function Plus(a: Value, b: Value): Value {
    if a.Text? || b.Text? then Text(Shown(a) + Shown(b)) else Number(AsNumber(a) + AsNumber(b))
  }

  /** `a + b + ...` from left to right. */
  function Sum(run: seq<Value>): Value {
    if run == [] then Text("") else if |run| == 1 then run[0] else Plus(Sum(run[..|run| - 1]), run[|run| - 1])
  }

  /** Each chunk appended to a buffer that is a string. */
  function Joined(run: seq<Value>): string {
    if run == [] then "" else Joined(run[..|run| - 1]) + Shown(run[|run| - 1])
  }

  predicate NoText(run: seq<Value>) { forall i :: 0 <= i < |run| ==> !run[i].Text? }

  lemma SumSnoc(run: seq<Value>, x: Value)
    ensures Sum(run + [x]) == if run == [] then x else Plus(Sum(run), x)
    ensures Joined(run + [x]) == Joined(run) + Shown(x)
  {
    hide Plus, Shown;
    assert (run + [x])[..|run|] == run;
  }

  lemma JoinOne(v: Value)
    ensures Joined([v]) == Shown(v) && Sum([v]) == v
  {
    hide Shown;
    SumSnoc([], v);
    assert [] + [v] == [v] && "" + Shown(v) == Shown(v);
  }

  lemma {:induction false} JoinedConcat(a: seq<Value>, b: seq<Value>)
    ensures Joined(a + b) == Joined(a) + Joined(b)
    decreases |b|
  {
    hide Shown, Joined;
    if b == [] {
      NothingJoined();
      assert a + b == a && Joined(a) + "" == Joined(a);
    } else {
      var n := |b| - 1;
      JoinedConcat(a, b[..n]);
      assert a + b == (a + b[..n]) + [b[n]] && b == b[..n] + [b[n]];
      SumSnoc(a + b[..n], b[n]);
      SumSnoc(b[..n], b[n]);
      assert Joined(a) + Joined(b[..n]) + Shown(b[n]) == Joined(a) + (Joined(b[..n]) + Shown(b[n]));
    }
  }

  lemma NothingJoined()
    ensures Sum([]) == Text("") && Joined([]) == ""
  {
  }

  // ---------- A sum is never longer than its parts side by side ----------

  lemma {:induction false} TenGrows(k: nat)
    requires k >= 1
    ensures Ten(k) >= 10
  {
    if k > 1 {
      TenGrows(k - 1);
    }
  }

  lemma DecMonotone(a: nat, b: nat)
    requires a <= b
    ensures |Dec(a)| <= |Dec(b)|
  {
    hide Dec;
    DecLength(b, |Dec(b)|);
    DecLength(a, |Dec(b)|);
  }

  lemma TwoPowers(p: nat, q: nat)
    requires p >= 10 && q >= 10
    ensures p + q <= p * q
  {
    assert p * q >= p * 10 && p * q >= 10 * q;
  }

  lemma DecOfSum(a: nat, b: nat)
    ensures |Dec(a + b)| <= |Dec(a)| + |Dec(b)|
  {
    hide Dec, Ten;
    var k, l := |Dec(a)|, |Dec(b)|;
    DecLength(a, k);
    DecLength(b, l);
    TenGrows(k);
    TenGrows(l);
    TwoPowers(Ten(k), Ten(l));
    TenAdd(k, l);
    DecLength(a + b, k + l);
  }

  lemma SignedOfSum(a: int, b: int)
    ensures |Signed(a + b)| <= |Signed(a)| + |Signed(b)|
  {
    hide Dec;
    if a >= 0 && b >= 0 {
      DecOfSum(a, b);
    } else if a < 0 && b < 0 {
      DecOfSum(-a, -b);
    } else {
      var up, down := if a < 0 then b else a, if a < 0 then -a else -b;
      if up >= down {
        DecMonotone(up - down, up);
      } else {
        DecMonotone(down - up, down);
      }
    }
  }

  lemma BoolsAreLong(v: Value)
    requires !v.Text?
    ensures 1 <= |Signed(AsNumber(v))| <= |Shown(v)|
  {
  }

  lemma PlusShort(a: Value, b: Value)
    ensures |Shown(Plus(a, b))| <= |Shown(a)| + |Shown(b)|
  {
    hide Signed;
    if !a.Text? && !b.Text? {
      SignedOfSum(AsNumber(a), AsNumber(b));
      BoolsAreLong(a);
      BoolsAreLong(b);
    }
  }

  lemma {:induction false} SumShort(run: seq<Value>)
    ensures |Shown(Sum(run))| <= |Joined(run)|
  {
    hide Shown, Plus;
    if run == [] {
      EmptyShown();
    } else {
      var n := |run| - 1;
      SumShort(run[..n]);
      PlusShort(Sum(run[..n]), run[n]);
    }
  }

  lemma EmptyShown()
    ensures Shown(Text("")) == ""
  {
  }

  // ---------- A sum of numbers is never its parts side by side ----------

  predicate IsDigit(c: char) { '0' <= c <= '9' }

  /** How an integer is printed: digits, perhaps after a sign. */
  predicate Integral(s: string) {
    s != "" && (s[0] == '-' || IsDigit(s[0])) && forall i :: 1 <= i < |s| ==> IsDigit(s[i])
  }

  lemma {:induction false} FirstDigit(n: nat)
    ensures Dec(n)[0] == '0' <==> n == 0
  {
    if n >= 10 {
      FirstDigit(n / 10);
    }
  }

  /** Only a natural number is printed without a sign or a letter. */
  lemma DigitsOnly(v: Value)
    requires !v.Text? && forall i :: 0 <= i < |Shown(v)| ==> IsDigit(Shown(v)[i])
    ensures v.Number? && v.n >= 0
  {
    hide Dec;
    assert Shown(v) != "" && IsDigit(Shown(v)[0]);
  }

  lemma Grows(v: nat, t: nat, x: nat, s: int)
    requires v >= s && t >= 10
    ensures v * t + x >= s + x && (v > 0 ==> v * t + x > s + x)
  {
    assert v * t >= v * 10;
  }

  lemma AppendedValue(before: Digits, s: int, x: nat)
    requires Val(before) >= s
    ensures Val(before + Dec(x)) >= s + x && (Val(before) > 0 ==> Val(before + Dec(x)) > s + x)
    ensures Val(before + Dec(x)) >= Val(before)
  {
    ValDec(x);
    ValAppend(before, Dec(x));
    TenGrows(|Dec(x)|);
    hide Val, Dec, Ten;
    Grows(Val(before), Ten(|Dec(x)|), x, s);
    Grows(Val(before), Ten(|Dec(x)|), x, Val(before));
  }

  /** If an integer is printed, only its first part has a sign. */
  lemma LastPart(run: seq<Value>)
    requires |run| >= 2 && NoText(run) && Integral(Joined(run)) && Joined(run[..|run| - 1]) != ""
    ensures Integral(Joined(run[..|run| - 1])) && run[|run| - 1].Number? && run[|run| - 1].n >= 0
  {
    hide Joined, Shown;
    var before, last := Joined(run[..|run| - 1]), run[|run| - 1];
    SumSnoc(run[..|run| - 1], last);
    assert run[..|run| - 1] + [last] == run;
    forall i | 0 <= i < |Shown(last)|
      ensures IsDigit(Shown(last)[i])
    {
      assert Joined(run)[|before| + i] == Shown(last)[i];
    }
    DigitsOnly(last);
    forall i | 0 <= i < |before|
      ensures before[i] == Joined(run)[i]
    {
    }
  }

  lemma {:induction false} PartsShown(run: seq<Value>)
    requires run != [] && NoText(run)
    ensures Joined(run) != "" && !Sum(run).Text?
    ensures |run| >= 2 ==> Sum(run).Number?
  {
    hide Shown;
    var n := |run| - 1;
    BoolsAreLong(run[n]);
    if n == 0 {
      assert run == [run[0]];
      JoinOne(run[0]);
    } else {
      PartsShown(run[..n]);
    }
  }

  /** Natural numbers side by side read as more than their sum, or start with a zero; after a sign they read as more
      than the size of a negative sum. */
  lemma {:induction false} PartsRead(run: seq<Value>) returns (digits: Digits)
    requires run != [] && NoText(run) && Integral(Joined(run))
    ensures run[0].Number? && !Sum(run).Text? && |digits| >= |run|
    ensures Joined(run) == (if run[0].n < 0 then "-" + digits else digits)
    ensures Outweighs(run[0].n, digits, AsNumber(Sum(run)), |run| >= 2)
  {
    hide Val, Dec, Joined, Sum, Integral, NoText, Outweighs;
    var n := |run| - 1;
    NoTextAt(run, 0);
    if n == 0 {
      assert run == [run[0]];
      JoinOne(run[0]);
      digits := PartRead(run[0]);
    } else {
      assert run == run[..n] + [run[n]];
      NoTextConcat(run[..n], [run[n]]);
      PartsShown(run[..n]);
      LastPart(run);
      var before := PartsRead(run[..n]);
      digits := before + Dec(run[n].n);
      PartAppended(run[0].n, before, AsNumber(Sum(run[..n])), |run[..n]| >= 2, run[n].n);
      SumSnoc(run[..n], run[n]);
      assert "-" + before + Dec(run[n].n) == "-" + digits;
    }
  }

  /** The digits printed after a first number, against the sum. */
  predicate Outweighs(first: int, digits: Digits, sum: int, more: bool) {
    if first < 0 then Val(digits) > 0 && Val(digits) >= -sum && (more ==> Val(digits) > -sum)
    else if first == 0 then digits != [] && digits[0] == '0' && sum >= 0
    else Val(digits) > 0 && Val(digits) >= sum > 0 && (more ==> Val(digits) > sum)
  }

  lemma PartAppended(first: int, before: Digits, sum: int, more: bool, x: nat)
    requires Outweighs(first, before, sum, more)
    ensures Outweighs(first, before + Dec(x), sum + x, true)
  {
    hide Val, Dec;
    AppendedValue(before, if first < 0 then -sum else if first == 0 then 0 else sum, x);
  }

  lemma PartRead(v: Value) returns (digits: Digits)
    requires !v.Text? && Integral(Shown(v))
    ensures v.Number? && digits == Dec(if v.n < 0 then -v.n else v.n)
    ensures Shown(v) == (if v.n < 0 then "-" + digits else digits)
    ensures |digits| >= 1 && Outweighs(v.n, digits, v.n, false)
  {
    hide Dec, Val;
    assert Shown(v)[0] == '-' || IsDigit(Shown(v)[0]);
    digits := Dec(if v.n < 0 then -v.n else v.n);
    ValDec(if v.n < 0 then -v.n else v.n);
    FirstDigit(0);
  }

  lemma SumOfNumbersDiffers(run: seq<Value>)
    requires |run| >= 2 && NoText(run)
    ensures !Sum(run).Text? && Shown(Sum(run)) != Joined(run)
  {
    hide Sum, Joined, Val, Dec;
    PartsShown(run);
    var sum := AsNumber(Sum(run));
    assert Integral(Signed(sum));
    if Integral(Joined(run)) {
      var digits := PartsRead(run);
      var size := if sum < 0 then -sum else sum;
      ValDec(size);
      FirstDigit(size);
      DecLength(0, 1);
      if run[0].n < 0 {
        assert Joined(run)[0] == '-' && Joined(run)[1..] == digits;
        assert sum < 0 ==> Signed(sum)[1..] == Dec(size);
        assert Val(digits) != Val(Dec(size)) || sum >= 0;
      } else if run[0].n > 0 {
        assert Val(digits) != Val(Dec(size));
      } else if sum > 0 {
        assert digits[0] != Dec(size)[0];
      }
    }
  }

  // ---------- Runs and groups of runs ----------

  lemma SamePieces(a: string, b: string, x: string, y: string)
    requires |a| <= |b| && |x| <= |y|
    ensures a + x == b + y <==> a == b && x == y
  {
    if a + x == b + y {
      assert |a| == |b| && a == (a + x)[..|a|] && b == (b + y)[..|b|];
      assert x == (a + x)[|a|..] && y == (b + y)[|b|..];
    }
  }

  /** Begins with two values that are not texts. */
  predicate Adds(run: seq<Value>) { |run| >= 2 && !run[0].Text? && !run[1].Text? }

  /** A run by itself prints its chunks one after the other exactly when it does not begin with two numbers. */
  lemma {:induction false} RunPrintsChunksIff(run: seq<Value>)
    ensures Shown(Sum(run)) == Joined(run) <==> !Adds(run)
    ensures !Sum(run).Text? <==> run != [] && NoText(run)
  {
    hide Shown, Sum, Joined;
    EmptyShown();
    if run == [] {
      assert Sum([]) == Text("") && Joined([]) == "" by {
        NothingJoined();
      }
    } else if |run| == 1 {
      assert run == [run[0]];
      JoinOne(run[0]);
    } else if NoText(run) {
      SumOfNumbersDiffers(run);
    } else {
      var n := |run| - 1;
      RunPrintsChunksIff(run[..n]);
      assert run[..n] + [run[n]] == run;
      SumSnoc(run[..n], run[n]);
      assert Sum(run[..n]).Text? || run[n].Text?;
      SumShort(run[..n]);
      PlusText(Sum(run[..n]), run[n]);
      SamePieces(Shown(Sum(run[..n])), Joined(run[..n]), Shown(run[n]), Shown(run[n]));
    }
  }

  lemma PlusText(a: Value, b: Value)
    requires a.Text? || b.Text?
    ensures Plus(a, b).Text? && Shown(Plus(a, b)) == Shown(a) + Shown(b)
  {
  }

  function Sums(groups: seq<seq<Value>>): (r: seq<Value>)
    ensures |r| == |groups| && forall i :: 0 <= i < |r| ==> r[i] == Sum(groups[i])
  {
    seq(|groups|, i requires 0 <= i < |groups| => Sum(groups[i]))
  }

  function Flat(groups: seq<seq<Value>>): seq<Value> {
    if groups == [] then [] else Flat(groups[..|groups| - 1]) + groups[|groups| - 1]
  }

  lemma FlatSnoc(groups: seq<seq<Value>>, g: seq<Value>)
    ensures Flat(groups + [g]) == Flat(groups) + g && Sums(groups + [g]) == Sums(groups) + [Sum(g)]
  {
    assert (groups + [g])[..|groups|] == groups;
  }

  predicate NoneEmpty(groups: seq<seq<Value>>) { forall i :: 0 <= i < |groups| ==> groups[i] != [] }

  /** One value, not a text. */
  predicate Lone(g: seq<Value>) { |g| == 1 && !g[0].Text? }

  /** No group begins with two numbers, and the first two groups are not two numbers. */
  predicate Apart(groups: seq<seq<Value>>) {
    && (forall i :: 0 <= i < |groups| ==> !Adds(groups[i]))
    && !(|groups| >= 2 && Lone(groups[0]) && Lone(groups[1]))
  }

  lemma ApartSnoc(groups: seq<seq<Value>>, g: seq<Value>)
    ensures Apart(groups + [g]) <==> Apart(groups) && !Adds(g) && !(|groups| == 1 && Lone(groups[0]) && Lone(g))
  {
    hide Adds, Lone;
    var all := groups + [g];
    if Apart(all) {
      forall i | 0 <= i < |groups|
        ensures !Adds(groups[i])
      {
        assert !Adds(all[i]);
      }
      assert !Adds(all[|groups|]);
      assert |groups| >= 2 ==> all[0] == groups[0] && all[1] == groups[1];
    }
  }

  lemma PlusAssoc(a: Value, b: Value, c: Value)
    requires !a.Text? && !b.Text? && !c.Text?
    ensures Plus(Plus(a, b), c) == Plus(a, Plus(b, c)) && Plus(a, b).Number? && Plus(Plus(a, b), c).Number?
  {
  }

  lemma {:induction false} SumConcat(a: seq<Value>, b: seq<Value>)
    requires a != [] && b != [] && NoText(a) && NoText(b)
    ensures Sum(a + b) == Plus(Sum(a), Sum(b)) && Sum(a + b).Number?
    decreases |b|
  {
    hide Sum, Plus, NoText;
    var n := |b| - 1;
    var last := b[n];
    assert a + b == (a + b[..n]) + [last] && b == b[..n] + [last];
    NoTextConcat(b[..n], [last]);
    NoTextAt(b, n);
    PartsShown(a);
    SumSnoc(a + b[..n], last);
    SumSnoc(b[..n], last);
    if n == 0 {
      assert a + b[..n] == a;
      PlusAssoc(Sum(a), last, last);
    } else {
      SumConcat(a, b[..n]);
      PartsShown(b[..n]);
      PlusAssoc(Sum(a), Sum(b[..n]), last);
    }
  }

  lemma NoTextAt(run: seq<Value>, i: nat)
    requires NoText(run) && i < |run|
    ensures !run[i].Text?
  {
  }

  lemma NoTextOne(x: Value)
    ensures NoText([x]) <==> !x.Text?
  {
    assert [x][0] == x;
  }

  /** Nothing but numbers: the sum of sums is the sum of all. */
  lemma {:induction false} NumbersAdd(groups: seq<seq<Value>>)
    requires NoneEmpty(groups)
    ensures NoText(Sums(groups)) <==> NoText(Flat(groups))
    ensures |Flat(groups)| >= |groups|
    ensures |groups| >= 2 && NoText(Flat(groups)) ==> Sum(Sums(groups)) == Sum(Flat(groups))
    decreases |groups|
  {
    hide Sum, Sums, Flat, NoText, Plus;
    if groups == [] {
      NothingFlat();
    } else {
      var n := |groups| - 1;
      var before, g := groups[..n], groups[n];
      NumbersAdd(before);
      assert groups == before + [g];
      FlatSnoc(before, g);
      RunPrintsChunksIff(g);
      NoTextOne(Sum(g));
      NoTextConcat(Sums(before), [Sum(g)]);
      NoTextConcat(Flat(before), g);
      if n >= 1 && NoText(Flat(groups)) {
        SumConcat(Flat(before), g);
        SumSnoc(Sums(before), Sum(g));
        if n == 1 {
          OneGroup(before[0]);
          assert before == [before[0]];
        }
      }
    }
  }

  lemma NoTextConcat(a: seq<Value>, b: seq<Value>)
    ensures NoText(a + b) <==> NoText(a) && NoText(b)
  {
    if NoText(a + b) {
      assert forall i :: 0 <= i < |a| ==> a[i] == (a + b)[i];
      assert forall i :: 0 <= i < |b| ==> b[i] == (a + b)[|a| + i];
    }
  }

  lemma NothingFlat()
    ensures Flat([]) == [] && Sums([]) == [] && Joined([]) == ""
  {
  }

  lemma OneGroup(g: seq<Value>)
    ensures Flat([g]) == g && Sums([g]) == [Sum(g)] && Sum(Sums([g])) == Sum(g)
  {
    NothingFlat();
    FlatSnoc([], g);
    assert [] + [g] == [g] && [] + g == g && [] + [Sum(g)] == [Sum(g)];
    JoinOne(Sum(g));
  }

  /** Nothing but numbers, in two groups or more, are never apart. */
  lemma NumbersNotApart(groups: seq<seq<Value>>)
    requires NoneEmpty(groups) && |groups| >= 2 && NoText(Flat(groups))
    ensures !Apart(groups)
  {
    hide Sum, Flat;
    NumbersAdd(groups);
    var g, h := groups[0], groups[1];
    assert Sums(groups)[0] == Sum(g) && Sums(groups)[1] == Sum(h);
    RunPrintsChunksIff(g);
    RunPrintsChunksIff(h);
  }

  /** Sums added up print all the chunks exactly when the groups are apart: a wrong sum is never longer than what it
      stands for, so nothing later can make up for it. */
  lemma {:induction false} GroupsPrintChunksIff(groups: seq<seq<Value>>)
    requires NoneEmpty(groups)
    ensures Shown(Sum(Sums(groups))) == Joined(Flat(groups)) <==> Apart(groups)
    ensures |Shown(Sum(Sums(groups)))| <= |Joined(Flat(groups))|
    decreases |groups|
  {
    hide Shown, Sum, Joined, Flat, Sums, Plus, Adds, Lone, Apart;
    if groups == [] {
      NothingFlat();
      NothingJoined();
      EmptyShown();
      NothingApart();
    } else {
      var n := |groups| - 1;
      var before, g := groups[..n], groups[n];
      assert groups == before + [g];
      ApartSnoc(before, g);
      RunPrintsChunksIff(g);
      SumShort(g);
      if n == 0 {
        NothingApart();
        assert groups == [g];
        OneGroup(g);
      } else if NoText(Flat(groups)) {
        NumbersAdd(groups);
        NumbersNotApart(groups);
        SumOfNumbersDiffers(Flat(groups));
        SumShort(Flat(groups));
      } else {
        GroupsPrintChunksIff(before);
        TextGroup(before, g);
      }
    }
  }

  lemma NothingApart()
    ensures Apart([])
  {
  }

  /** Where a text is involved, the last group is joined on. */
  lemma TextGroup(before: seq<seq<Value>>, g: seq<Value>)
    requires before != [] && NoneEmpty(before) && g != [] && !NoText(Flat(before + [g]))
    requires |Shown(Sum(Sums(before)))| <= |Joined(Flat(before))|
    ensures var all := before + [g];
      && (Shown(Sum(Sums(all))) == Joined(Flat(all)) <==>
          Shown(Sum(Sums(before))) == Joined(Flat(before)) && Shown(Sum(g)) == Joined(g))
      && |Shown(Sum(Sums(all)))| <= |Joined(Flat(all))|
      && !(|before| == 1 && Lone(before[0]) && Lone(g))
  {
    hide Shown, Sum, Joined, Flat, Sums, Plus;
    FlatSnoc(before, g);
    SumSnoc(Sums(before), Sum(g));
    JoinedConcat(Flat(before), g);
    NoTextConcat(Flat(before), g);
    RunPrintsChunksIff(g);
    RunPrintsChunksIff(Sums(before));
    NumbersAdd(before);
    PlusText(Sum(Sums(before)), Sum(g));
    SumShort(g);
    SamePieces(Shown(Sum(Sums(before))), Joined(Flat(before)), Shown(Sum(g)), Joined(g));
    if |before| == 1 {
      assert before == [before[0]];
      OneGroup(before[0]);
    }
  }

  // ---------- The merged function ----------

  /** A chunk, or a line that adds a value to the buffer itself unless the value is null. */
  type Line = M.Line<Value, Option<Value>>

  type Statement = M.Statement<Value, Option<Value>>

  /** Everything the lines print, in order. */
  function Chunks(lines: seq<Line>): seq<Value> {
    if lines == [] then [] else
      var n := |lines| - 1;
      Chunks(lines[..n]) +
      if lines[n].Append? then [lines[n].chunk] else if lines[n].code.Some? then [lines[n].code.value] else []
  }

  datatype Progress = Returned(value: Value) | Going(buffer: Value)

  /** `buffer += a + b` adds the sum of the run; `return buffer + a + b` adds one chunk after the other. */
  function Step(x: Statement, p: Progress): Progress {
    if p.Returned? then p else
      match x
      case Init(run) => Going(Sum(run))
      case InitEmpty => Going(Text(""))
      case AddTo(run) => Going(Plus(p.buffer, Sum(run)))
      case Return(run) => Returned(Sum(run))
      case ReturnEmpty => Returned(Text(""))
      case ReturnWith(run) => Returned(Sum([p.buffer] + run))
      case ReturnBuffer => Returned(p.buffer)
      case Do(code) => if code.None? then p else Going(Plus(p.buffer, code.value))
  }

  function Run(statements: seq<Statement>, p: Progress): Progress {
    if statements == [] then p else Step(statements[|statements| - 1], Run(statements[..|statements| - 1], p))
  }

  function Singles(run: seq<Value>): (r: seq<seq<Value>>)
    ensures |r| == |run| && forall i :: 0 <= i < |r| ==> r[i] == [run[i]]
  {
    seq(|run|, i requires 0 <= i < |run| => [run[i]])
  }

  /** What a statement adds to the buffer as one value each. */
  function Groups(x: Statement): seq<seq<Value>> {
    match x
    case Init(run) => [run]
    case InitEmpty => [[Text("")]]
    case AddTo(run) => [run]
    case Return(run) => [run]
    case ReturnEmpty => []
    case ReturnWith(run) => Singles(run)
    case ReturnBuffer => []
    case Do(code) => if code.None? then [] else [[code.value]]
  }

  function AllGroups(statements: seq<Statement>): seq<seq<Value>> {
    if statements == [] then [] else AllGroups(statements[..|statements| - 1]) + Groups(statements[|statements| - 1])
  }

  lemma RunSnoc(statements: seq<Statement>, x: Statement, p: Progress)
    ensures Run(statements + [x], p) == Step(x, Run(statements, p))
    ensures AllGroups(statements + [x]) == AllGroups(statements) + Groups(x)
  {
    hide Step, Groups;
    assert (statements + [x])[..|statements|] == statements;
  }

  lemma {:induction false} SinglesAdd(groups: seq<seq<Value>>, run: seq<Value>)
    ensures Sums(groups + Singles(run)) == Sums(groups) + run && Flat(groups + Singles(run)) == Flat(groups) + run
    decreases |run|
  {
    hide Sum, Flat;
    if run == [] {
      assert groups + Singles(run) == groups;
    } else {
      var n := |run| - 1;
      SinglesAdd(groups, run[..n]);
      assert groups + Singles(run) == groups + Singles(run[..n]) + [[run[n]]];
      FlatSnoc(groups + Singles(run[..n]), [run[n]]);
      JoinOne(run[n]);
    }
  }

  lemma {:induction false} SumFrom(a: seq<Value>, b: seq<Value>)
    requires a != []
    ensures Sum(a + b) == Sum([Sum(a)] + b)
    decreases |b|
  {
    hide Sum, Plus;
    if b == [] {
      assert a + b == a && [Sum(a)] + b == [Sum(a)];
      JoinOne(Sum(a));
    } else {
      var n := |b| - 1;
      SumFrom(a, b[..n]);
      assert a + b == (a + b[..n]) + [b[n]] && [Sum(a)] + b == ([Sum(a)] + b[..n]) + [b[n]];
      SumSnoc(a + b[..n], b[n]);
      SumSnoc([Sum(a)] + b[..n], b[n]);
    }
  }

  /** The buffer holds the sum of what has been added to it so far. */
  predicate Holds(statements: seq<Statement>, undefined: Value) {
    && AllGroups(statements) != [] && NoneEmpty(AllGroups(statements))
    && Run(statements, Going(undefined)) == Going(Sum(Sums(AllGroups(statements))))
  }

  lemma Declared(x: Statement, undefined: Value)
    requires x.InitEmpty? || (x.Init? && x.run != [])
    ensures Holds([x], undefined)
  {
    hide Sum, Sums;
    RunSnoc([], x, Going(undefined));
    assert [] + [x] == [x] && [] + Groups(x) == Groups(x);
    OneGroup(if x.InitEmpty? then [Text("")] else x.run);
    JoinOne(Text(""));
  }

  lemma Extended(statements: seq<Statement>, x: Statement, undefined: Value)
    requires Holds(statements, undefined) && (x.Do? || (x.AddTo? && x.run != []))
    ensures Holds(statements + [x], undefined)
  {
    hide Sum, Sums, Plus, AllGroups, Run;
    var groups := AllGroups(statements);
    RunSnoc(statements, x, Going(undefined));
    if x.Do? && x.code.None? {
      assert groups + [] == groups;
    } else {
      var g := if x.Do? then [x.code.value] else x.run;
      assert Groups(x) == [g];
      FlatSnoc(groups, g);
      SumSnoc(Sums(groups), Sum(g));
      assert x.Do? ==> Sum(g) == x.code.value by {
        if x.Do? {
          JoinOne(x.code.value);
        }
      }
    }
  }

  lemma {:induction false} StartedHolds(lines: seq<Line>, undefined: Value)
    ensures M.Started(lines) == [] || Holds(M.Started(lines), undefined)
    decreases |lines|
  {
    hide Holds, M.Started, M.Pending;
    if lines == [] {
      M.Empty<Value, Option<Value>>();
    } else {
      var n := |lines| - 1;
      var before, run := M.Started(lines[..n]), M.Pending(lines[..n]);
      StartedHolds(lines[..n], undefined);
      assert lines[..n + 1] == lines;
      M.LineAdded(lines, n);
      if lines[n].Plain? {
        ClosedHolds(before, run, undefined);
        Extended(before + M.Closing(run, before == []), M.Do(lines[n].code), undefined);
      }
    }
  }

  lemma ClosedHolds(before: seq<Statement>, run: seq<Value>, undefined: Value)
    requires before == [] || Holds(before, undefined)
    ensures Holds(before + M.Closing(run, before == []), undefined)
  {
    hide Holds;
    if before == [] {
      var x: Statement := if run == [] then M.InitEmpty else M.Init(run);
      Declared(x, undefined);
      assert [] + [x] == [x];
    } else if run == [] {
      assert before + [] == before;
    } else {
      Extended(before, M.AddTo(run), undefined);
    }
  }

  /** The merged function returns the sum of its groups. */
  lemma MergedReturns(lines: seq<Line>, undefined: Value)
    ensures NoneEmpty(AllGroups(M.Merged(lines)))
    ensures Run(M.Merged(lines), Going(undefined)) == Returned(Sum(Sums(AllGroups(M.Merged(lines)))))
  {
    hide Sum, Sums, AllGroups, Run, M.Started, M.Pending;
    var started, run := M.Started(lines), M.Pending(lines);
    StartedHolds(lines, undefined);
    if started == [] {
      var x: Statement := if run == [] then M.ReturnEmpty else M.Return(run);
      ReturnedAlone(x, undefined);
    } else {
      var x: Statement := if run == [] then M.ReturnBuffer else M.ReturnWith(run);
      var groups := AllGroups(started);
      RunSnoc(started, x, Going(undefined));
      SinglesAdd(groups, run);
      SumFrom(Sums(groups), run);
      assert Singles([]) == [] && groups + [] == groups;
    }
  }

  lemma ReturnedAlone(x: Statement, undefined: Value)
    requires x.ReturnEmpty? || (x.Return? && x.run != [])
    ensures NoneEmpty(AllGroups([x])) && Run([x], Going(undefined)) == Returned(Sum(Sums(AllGroups([x]))))
  {
    hide Sum, Sums;
    RunSnoc([], x, Going(undefined));
    assert [] + [x] == [x] && [] + Groups(x) == Groups(x);
    if x.Return? {
      OneGroup(x.run);
    } else {
      NothingFlat();
      NothingJoined();
    }
  }

  lemma {:induction false} FlatConcat(a: seq<seq<Value>>, b: seq<seq<Value>>)
    ensures Flat(a + b) == Flat(a) + Flat(b)
    decreases |b|
  {
    hide Flat;
    NothingFlat();
    if b == [] {
      assert a + b == a && Flat(a) + [] == Flat(a);
    } else {
      var n := |b| - 1;
      FlatConcat(a, b[..n]);
      assert a + b == (a + b[..n]) + [b[n]] && b == b[..n] + [b[n]];
      FlatSnoc(a + b[..n], b[n]);
      FlatSnoc(b[..n], b[n]);
      assert Flat(a) + Flat(b[..n]) + b[n] == Flat(a) + (Flat(b[..n]) + b[n]);
    }
  }

  function JoinedGroups(statements: seq<Statement>): string { Joined(Flat(AllGroups(statements))) }

  lemma JoinedSnoc(statements: seq<Statement>, x: Statement)
    ensures JoinedGroups(statements + [x]) == JoinedGroups(statements) + Joined(Flat(Groups(x)))
  {
    hide Joined, Flat, Groups, AllGroups;
    RunSnoc(statements, x, Going(Text("")));
    FlatConcat(AllGroups(statements), Groups(x));
    JoinedConcat(Flat(AllGroups(statements)), Flat(Groups(x)));
  }

  lemma StatementJoined(x: Statement)
    ensures Joined(Flat(Groups(x))) ==
      match x
      case Init(run) => Joined(run)
      case AddTo(run) => Joined(run)
      case Return(run) => Joined(run)
      case ReturnWith(run) => Joined(run)
      case Do(code) => if code.Some? then Shown(code.value) else ""
      case _ => ""
  {
    hide Joined, Flat, Shown;
    NothingFlat();
    EmptyShown();
    match x
    case Init(run) => OneGroup(run);
    case AddTo(run) => OneGroup(run);
    case Return(run) => OneGroup(run);
    case ReturnWith(run) =>
      SinglesAdd([], run);
      assert [] + Singles(run) == Singles(run) && [] + run == run;
    case Do(code) =>
      if code.Some? {
        OneGroup([code.value]);
        JoinOne(code.value);
      }
    case InitEmpty =>
      OneGroup([Text("")]);
      JoinOne(Text(""));
    case _ =>
  }

  /** The statements and the pending run add exactly what the lines print. */
  lemma {:induction false} StartedJoined(lines: seq<Line>)
    ensures JoinedGroups(M.Started(lines)) + Joined(M.Pending(lines)) == Joined(Chunks(lines))
    decreases |lines|
  {
    hide JoinedGroups, Joined, Shown, M.Started, M.Pending, Groups, Flat, Chunks;
    if lines == [] {
      NoLines();
    } else {
      var n := |lines| - 1;
      var before, run := M.Started(lines[..n]), M.Pending(lines[..n]);
      StartedJoined(lines[..n]);
      assert lines[..n + 1] == lines;
      M.LineAdded(lines, n);
      ChunksLast(lines);
      if lines[n].Append? {
        SumSnoc(run, lines[n].chunk);
        assert JoinedGroups(before) + (Joined(run) + Shown(lines[n].chunk)) ==
               JoinedGroups(before) + Joined(run) + Shown(lines[n].chunk);
      } else {
        ClosedJoined(before, run);
        JoinedSnoc(before + M.Closing(run, before == []), M.Do(lines[n].code));
        StatementJoined(M.Do(lines[n].code));
        NothingJoined();
        assert JoinedGroups(M.Started(lines)) + "" == JoinedGroups(M.Started(lines));
      }
    }
  }

  lemma NoLines()
    ensures JoinedGroups([]) == "" && Joined([]) == "" && Chunks([]) == []
    ensures var none: seq<Line> := []; M.Started(none) == [] && M.Pending(none) == []
  {
  }

  lemma ChunksLast(lines: seq<Line>)
    requires lines != []
    ensures var x := lines[|lines| - 1];
      Joined(Chunks(lines)) == Joined(Chunks(lines[..|lines| - 1])) +
        if x.Append? then Shown(x.chunk) else if x.code.Some? then Shown(x.code.value) else ""
  {
    hide Joined, Shown;
    var before, x := Chunks(lines[..|lines| - 1]), lines[|lines| - 1];
    if x.Append? {
      SumSnoc(before, x.chunk);
    } else if x.code.Some? {
      SumSnoc(before, x.code.value);
    } else {
      assert before + [] == before && Joined(before) + "" == Joined(before);
    }
  }

  lemma ClosedJoined(before: seq<Statement>, run: seq<Value>)
    ensures JoinedGroups(before + M.Closing(run, before == [])) == JoinedGroups(before) + Joined(run)
  {
    hide JoinedGroups, Joined, Groups, Flat;
    var closing: seq<Statement> := M.Closing(run, before == []);
    NothingJoined();
    if closing == [] {
      assert before + [] == before && JoinedGroups(before) + "" == JoinedGroups(before);
    } else {
      assert closing == [closing[0]];
      JoinedSnoc(before, closing[0]);
      StatementJoined(closing[0]);
    }
  }

  /** All the groups of the merged function together are the chunks of the lines. */
  lemma MergedJoined(lines: seq<Line>)
    ensures JoinedGroups(M.Merged(lines)) == Joined(Chunks(lines))
  {
    hide JoinedGroups, Joined, Groups, Flat, M.Started, M.Pending, Chunks;
    var started, run := M.Started(lines), M.Pending(lines);
    StartedJoined(lines);
    NoLines();
    var x: Statement := if started == [] then (if run == [] then M.ReturnEmpty else M.Return(run))
                        else if run == [] then M.ReturnBuffer else M.ReturnWith(run);
    JoinedSnoc(started, x);
    StatementJoined(x);
    assert started == [] ==> [x] == started + [x];
  }

  /** The whole merged function prints its chunks one after the other exactly when no run that is summed by itself
      begins with two numbers and the first two values that reach the buffer are not both numbers. */
  lemma MergedPrintsChunksIff(lines: seq<Line>, undefined: Value)
    ensures Run(M.Merged(lines), Going(undefined)).Returned?
    ensures Shown(Run(M.Merged(lines), Going(undefined)).value) == Joined(Chunks(lines)) <==>
            Apart(AllGroups(M.Merged(lines)))
  {
    hide Shown, Joined, Sum, Sums, Flat, Run, M.Merged, AllGroups, Chunks, Apart;
    MergedReturns(lines, undefined);
    MergedJoined(lines);
    GroupsPrintChunksIff(AllGroups(M.Merged(lines)));
  }

  /** Two numbers in a row are added up. */
  lemma TwoNumbersAdded(undefined: Value)
    ensures var lines: seq<Line> := [M.Append(Number(1)), M.Append(Number(2))];
      Run(M.Merged(lines), Going(undefined)) == Returned(Number(3)) && Joined(Chunks(lines)) == "12"
  {
    hide Run, Joined, Sum, Sums, Flat, AllGroups, Groups, M.Started, M.Pending, Chunks, Shown;
    var lines: seq<Line> := [M.Append(Number(1)), M.Append(Number(2))];
    var run, x := [Number(1), Number(2)], M.Return([Number(1), Number(2)]);
    NoLines();
    M.LineAdded(lines, 0);
    M.LineAdded(lines, 1);
    assert lines[..0] == [] && lines[..2] == lines;
    assert M.Pending(lines) == run by {
      assert [] + [Number(1)] + [Number(2)] == run;
    }
    assert M.Merged(lines) == [x];
    ReturnedAlone(x, undefined);
    AloneReturned(run);
    ChunksLast(lines);
    ChunksLast(lines[..1]);
    assert lines[..1][..0] == [];
    OneAndTwo();
  }

  lemma AloneReturned(run: seq<Value>)
    ensures AllGroups([M.Return(run)]) == [run] && Sum(Sums([run])) == Sum(run)
  {
    hide Sum, Sums, Flat;
    var x: Statement := M.Return(run);
    OneGroup(run);
    RunSnoc([], x, Going(Text("")));
    assert [] + [x] == [x] && [] + [run] == [run];
  }

  lemma OneAndTwo()
    ensures Sum([Number(1), Number(2)]) == Number(3) && Shown(Number(1)) == "1" && Shown(Number(2)) == "2"
  {
    SumSnoc([Number(1)], Number(2));
    JoinOne(Number(1));
    assert [Number(1)] + [Number(2)] == [Number(1), Number(2)];
  }
}
