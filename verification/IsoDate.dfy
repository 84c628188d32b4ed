/** `Date.prototype.toISOString` and `Date.parse` as the shim defines them, for
    the date time string format of section 15.9.1.15 of ECMA-262 5.1. */
module IsoDate {
  import opened Wrappers
  import opened Strings
  import opened Decimal
  import opened GregorianCalendar

  // ---------- toISOString ----------

  datatype TimeValue = NotFinite | Finite(t: int)

  datatype IsoResult = Text(s: string) | RangeError

  function Absolute(n: int): nat { if n < 0 then -n else n }

  /** Four digits for the years 0 to 9999, otherwise a sign and six. */
  function YearText(y: int): string {
    if 0 <= y <= 9999 then Pad(y, 4) else [if y < 0 then '-' else '+'] + Pad(Absolute(y), 6)
  }

  /** The fields of f in the layout of section 15.9.1.15, each zero padded to its width. */
  function IsoText(f: Fields): string
    requires f.month >= 0 && f.date >= 0 && f.hours >= 0 && f.minutes >= 0 && f.seconds >= 0 && f.ms >= 0
  {
    YearText(f.year) + ("-" + Pad(f.month + 1, 2) + ("-" + Pad(f.date, 2) + (
      "T" + Pad(f.hours, 2) + ":" + Pad(f.minutes, 2) + (":" + Pad(f.seconds, 2) + ("." + Pad(f.ms, 3) + "Z")))))
  }

  /** `strSlice(s, -w)`. */
  function LastChars(s: string, w: int): string {
    Slice(s, 0 - w, |s|)
  }

  /** Padding on the left and slicing from the right keeps the last w digits. */
  lemma SliceIsPad(zeros: nat, n: nat, w: nat)
    requires w > 0 && n < Ten(w) && zeros + 1 >= w
    ensures LastChars(Zeros(zeros) + Dec(n), w) == Pad(n, w)
  {
    hide Dec, Pad, Ten;
    DecLength(n, w);
    DecPads(n, w);
    var s := Zeros(zeros) + Dec(n);
    assert s[|s| - w..] == Zeros(w - |Dec(n)|) + Dec(n);
  }

  lemma SmallPowers()
    ensures Ten(2) == 100 && Ten(3) == 1000 && Ten(4) == 10000 && Ten(6) == 1000000
  {
    TenAdd(3, 3);
  }

  /** The year as the shim writes it. */
  function ShimYear(year: int): string {
    (if year < 0 then "-" else if year > 9999 then "+" else "") +
    LastChars("00000" + Dec(Absolute(year)), if 0 <= year <= 9999 then 4 else 6)
  }

  lemma ShimYearExact(year: int)
    requires -999999 <= year <= 999999
    ensures ShimYear(year) == YearText(year)
  {
    SmallPowers();
    hide Dec, Pad, Ten, LastChars;
    assert "00000" == Zeros(5);
    SliceIsPad(5, Absolute(year), if 0 <= year <= 9999 then 4 else 6);
  }

  /** The loop that pads months, days, hours, minutes and seconds. */
  method PadTwoDigits(result: seq<nat>) returns (padded: seq<string>)
    requires forall k :: 0 <= k < |result| ==> result[k] < 100
    ensures |padded| == |result| && forall k :: 0 <= k < |result| ==> padded[k] == Pad(result[k], 2)
  {
    SmallPowers();
    hide Dec, Pad, Ten, LastChars;
    padded := [];
    for i := 0 to |result|
      invariant |padded| == i && forall k :: 0 <= k < i ==> padded[k] == Pad(result[k], 2)
    {
      assert "00" == Zeros(2);
      SliceIsPad(2, result[i], 2);
      padded := padded + [LastChars("00" + Dec(result[i]), 2)];
    }
  }

  lemma MonthInYear(year: int, month: int)
    requires 0 <= month < 12
    ensures year + month / 12 == year && (month % 12 + 12) % 12 == month
  {
  }

  function Composed(year: string, parts: seq<string>, ms: string): string
    requires |parts| == 5
  {
    year + "-" + Join(parts[..2], "-") + "T" + Join(parts[2..], ":") + "." + ms + "Z"
  }

  lemma ComposedExact(year: string, f: Fields, p: seq<string>, ms: string)
    requires f.month >= 0 && f.date >= 0 && f.hours >= 0 && f.minutes >= 0 && f.seconds >= 0 && f.ms >= 0
    requires p == [Pad(f.month + 1, 2), Pad(f.date, 2), Pad(f.hours, 2), Pad(f.minutes, 2), Pad(f.seconds, 2)]
    requires year == YearText(f.year) && ms == Pad(f.ms, 3)
    ensures Composed(year, p, ms) == IsoText(f)
  {
    hide Pad, YearText;
    JoinTwo(p[..2], "-");
    JoinThree(p[2..], ":");
    Regroup(year, p, ms);
  }

  lemma PadThree(ms: nat)
    requires ms < 1000
    ensures LastChars("000" + Dec(ms), 3) == Pad(ms, 3)
  {
    SmallPowers();
    hide Dec, Pad, Ten, LastChars;
    assert "000" == Zeros(3);
    SliceIsPad(3, ms, 3);
  }

  method ToISOString(time: TimeValue) returns (r: IsoResult)
    ensures time.NotFinite? ==> r == RangeError
    ensures time.Finite? && -8640000000000000 <= time.t <= 8640000000000000 ==> r == Text(IsoText(UTCFields(time.t)))
  {
    if time.NotFinite? {
      return RangeError;
    }
    hide UTCFields, IsoText, DaysInMonth;
    var f := UTCFields(time.t);
    MonthLength(f.year, f.month);
    MonthInYear(f.year, f.month);
    var text := FieldText(f, f.year + f.month / 12, (f.month % 12 + 12) % 12);
    r := Text(text);
    if -8640000000000000 <= time.t <= 8640000000000000 {
      YearRange(time.t);
    }
  }

  /** The text of fields whose year and month are normalised. */
  method FieldText(f: Fields, year: int, month: int) returns (text: string)
    requires year == f.year && month == f.month && 0 <= month < 12 && 1 <= f.date < 100
    requires 0 <= f.hours < 24 && 0 <= f.minutes < 60 && 0 <= f.seconds < 60 && 0 <= f.ms < 1000
    ensures -999999 <= f.year <= 999999 ==> text == IsoText(f)
  {
    hide Dec, Pad, LastChars, ShimYear, YearText, Composed, IsoText;
    var padded := PadTwoDigits([month + 1, f.date, f.hours, f.minutes, f.seconds]);
    PadThree(f.ms);
    var ms := LastChars("000" + Dec(f.ms), 3);
    text := Composed(ShimYear(year), padded, ms);
    if -999999 <= f.year <= 999999 {
      ShimYearExact(year);
      assert padded == [Pad(f.month + 1, 2), Pad(f.date, 2), Pad(f.hours, 2), Pad(f.minutes, 2), Pad(f.seconds, 2)];
      ComposedExact(ShimYear(year), f, padded, ms);
    }
  }

  lemma JoinTwo(p: seq<string>, sep: string)
    requires |p| == 2
    ensures Join(p, sep) == p[0] + sep + p[1]
  {
  }

  lemma JoinThree(p: seq<string>, sep: string)
    requires |p| == 3
    ensures Join(p, sep) == p[0] + sep + (p[1] + sep + p[2])
  {
    JoinTwo(p[1..], sep);
  }

  lemma Regroup(y: string, p: seq<string>, ms: string)
    requires |p| == 5
    ensures y + "-" + (p[0] + "-" + p[1]) + "T" + (p[2] + ":" + (p[3] + ":" + p[4])) + "." + ms + "Z" ==
            y + ("-" + p[0] + ("-" + p[1] + ("T" + p[2] + ":" + p[3] + (":" + p[4] + ("." + ms + "Z")))))
  {
  }

  // ---------- Date.parse ----------

  datatype Zone = NoZone | Utc | Offset(negative: bool, hours: Digits, minutes: Digits)

  /** What isoDateExpression captures; the fraction is held without its point. */
  datatype Captures = Captures(
    negativeYear: bool, year: Digits, month: Option<Digits>, day: Option<Digits>,
    hour: Option<Digits>, minute: Option<Digits>, second: Option<Digits>, fraction: Option<Digits>, zone: Zone)

  predicate IsDigit(c: char) { '0' <= c <= '9' }

  predicate DigitsAt(s: string, i: nat, n: nat) {
    i + n <= |s| && forall k :: i <= k < i + n ==> IsDigit(s[k])
  }

  /** The length of the longest run of digits in front. */
  function DigitRun(s: string): (n: nat)
    ensures n <= |s| && (forall k :: 0 <= k < n ==> IsDigit(s[k])) && (n < |s| ==> !IsDigit(s[n]))
  {
    if s == "" || !IsDigit(s[0]) then 0 else 1 + DigitRun(s[1..])
  }

  // The expression is deterministic: every optional group starts with a
  // character that nothing else at that place starts with.

  function MatchZone(s: string, c: Captures): Option<Captures> {
    if s == "" then Some(c)
    else if s == "Z" then Some(c.(zone := Utc))
    else if |s| == 6 && s[0] in "+-" && DigitsAt(s, 1, 2) && s[3] == ':' && DigitsAt(s, 4, 2) then
      Some(c.(zone := Offset(s[0] == '-', s[1..3], s[4..6])))
    else None
  }

  function MatchFraction(s: string, c: Captures): Option<Captures> {
    if |s| > 1 && s[0] == '.' && IsDigit(s[1]) then
      var n := DigitRun(s[1..]);
      MatchZone(s[1 + n..], c.(fraction := Some(s[1..1 + n])))
    else MatchZone(s, c)
  }

  function MatchSecond(s: string, c: Captures): Option<Captures> {
    if |s| >= 3 && s[0] == ':' && DigitsAt(s, 1, 2) then MatchFraction(s[3..], c.(second := Some(s[1..3])))
    else MatchZone(s, c)
  }

  function MatchTime(s: string, c: Captures): Option<Captures> {
    if s == "" then Some(c)
    else if |s| >= 6 && s[0] == 'T' && DigitsAt(s, 1, 2) && s[3] == ':' && DigitsAt(s, 4, 2) then
      MatchSecond(s[6..], c.(hour := Some(s[1..3]), minute := Some(s[4..6])))
    else None
  }

  function MatchDay(s: string, c: Captures): Option<Captures> {
    if s == "" then Some(c)
    else if |s| >= 3 && s[0] == '-' && DigitsAt(s, 1, 2) then MatchTime(s[3..], c.(day := Some(s[1..3])))
    else None
  }

  function MatchMonth(s: string, c: Captures): Option<Captures> {
    if s == "" then Some(c)
    else if |s| >= 3 && s[0] == '-' && DigitsAt(s, 1, 2) then MatchDay(s[3..], c.(month := Some(s[1..3])))
    else None
  }

  function MatchIso(s: string): Option<Captures> {
    if DigitsAt(s, 0, 4) then
      MatchMonth(s[4..], Captures(false, s[..4], None, None, None, None, None, None, NoZone))
    else if |s| > 0 && s[0] in "+-" && DigitsAt(s, 1, 6) then
      MatchMonth(s[7..], Captures(s[0] == '-', s[1..7], None, None, None, None, None, None, NoZone))
    else None
  }

  datatype Parsed = Delegated(text: string) | NaN | Time(t: int)

  function NumberOr(d: Option<Digits>, default: nat): nat {
    if d.Some? then Val(d.value) else default
  }

  /** floor(0.d * 1000), the fraction being read as an exact decimal. */
  function Milliseconds(d: Digits): nat {
    Quotient(Val(d) * 1000, Ten(|d|))
  }

  /** m thousandths are the whole thousandths of 0.d. */
  predicate WholeThousandths(d: Digits, m: int) { m * Ten(|d|) <= Val(d) * 1000 < (m + 1) * Ten(|d|) }

  lemma QuotientFloors(v: nat, t: nat)
    requires t > 0
    ensures Quotient(v, t) * t <= v < (Quotient(v, t) + 1) * t
  {
    assert v == t * (v / t) + v % t;
  }

  lemma MillisecondsWhole(d: Digits)
    ensures WholeThousandths(d, Milliseconds(d))
  {
    hide Val, Ten, Quotient;
    QuotientFloors(Val(d) * 1000, Ten(|d|));
  }

  lemma ThousandthsUnique(d: Digits, m: int, n: int)
    requires WholeThousandths(d, m) && WholeThousandths(d, n)
    ensures m == n
  {
    hide Val, Ten;
    var t := Ten(|d|);
    assert m < n ==> (m + 1) * t <= n * t;
    assert n < m ==> (n + 1) * t <= m * t;
  }

  /** Zeros at the end of a fraction change nothing. */
  lemma TrailingZero(d: Digits)
    ensures Milliseconds(d + "0") == Milliseconds(d)
  {
    hide Milliseconds;
    MillisecondsWhole(d);
    MillisecondsWhole(d + "0");
    ValAppend(d, "0");
    assert Val("0") == 0 && Ten(1) == 10 by {
      assert "0"[..0] == "";
    }
    TenAdd(|d|, 1);
    hide Val, Ten;
    TenTimes(Milliseconds(d), Ten(|d|), Val(d));
    assert Val(d + "0") == 10 * Val(d) && Ten(|d + "0"|) == 10 * Ten(|d|);
    ThousandthsUnique(d + "0", Milliseconds(d), Milliseconds(d + "0"));
  }

  lemma TenTimes(m: int, t: nat, v: nat)
    requires m * t <= v * 1000 < (m + 1) * t
    ensures m * (10 * t) <= 10 * v * 1000 < (m + 1) * (10 * t)
  {
  }

  function YearOf(c: Captures): int {
    if c.negativeYear then 0 - Val(c.year) as int else Val(c.year)
  }

  function MillisecondOf(c: Captures): nat {
    if c.fraction.Some? then Milliseconds(c.fraction.value) else 0
  }

  /** The range checks on the captured numbers. */
  predicate InRange(c: Captures) {
    var month := NumberOr(c.month, 1) as int - 1;
    var day := NumberOr(c.day, 1) as int - 1;
    var hour, minute, second := NumberOr(c.hour, 0), NumberOr(c.minute, 0), NumberOr(c.second, 0);
    var millisecond := MillisecondOf(c);
    var hourOffset := if c.zone.Offset? then Val(c.zone.hours) else 0;
    var minuteOffset := if c.zone.Offset? then Val(c.zone.minutes) else 0;
    var hasMinutesOrSecondsOrMilliseconds := minute > 0 || second > 0 || millisecond > 0;
    hour < (if hasMinutesOrSecondsOrMilliseconds then 24 else 25) &&
    minute < 60 && second < 60 && millisecond < 1000 &&
    month > -1 && month < 12 && hourOffset < 24 && minuteOffset < 60 &&
    day > -1 && day < DayFromMonth(YearOf(c), month + 1) - DayFromMonth(YearOf(c), month)
  }

  /** The time computed from day number, clock and offset. */
  function Combined(days: int, hour: int, minute: int, second: int, millisecond: int,
                    hourOffset: int, minuteOffset: int, signOffset: int): int {
    var hours := (days * 24 + hour + hourOffset * signOffset) * 60;
    ((hours + minute + minuteOffset * signOffset) * 60 + second) * 1000 + millisecond
  }

  function ResultOf(c: Captures): int
    requires InRange(c)
  {
    var month := NumberOr(c.month, 1) as int - 1;
    var day := NumberOr(c.day, 1) as int - 1;
    var signOffset := if c.zone.Offset? && c.zone.negative then 1 else -1;
    var hourOffset := if c.zone.Offset? then Val(c.zone.hours) else 0;
    var minuteOffset := if c.zone.Offset? then Val(c.zone.minutes) else 0;
    Combined(DayFromMonth(YearOf(c), month) + day, NumberOr(c.hour, 0), NumberOr(c.minute, 0),
             NumberOr(c.second, 0), MillisecondOf(c), hourOffset, minuteOffset, signOffset)
  }

  /** `Date.parse`; local times go through the platform's `toUTC`. */
  function Parse(text: string, toUTC: int -> int): Parsed {
    var found := MatchIso(text);
    if found.None? then Delegated(text) else
      var c := found.value;
      if InRange(c) then
        var isLocalTime := c.hour.Some? && c.zone.NoZone?;
        var result := ResultOf(c);
        var utc := if isLocalTime then toUTC(result) else result;
        if -8640000000000000 <= utc <= 8640000000000000 then Time(utc) else NaN
      else NaN
  }

  // ---------- What is accepted, and what it means ----------

  /** The whole thousandths of a fraction. */
  ghost function Thousandths(d: Digits): (m: int)
    ensures WholeThousandths(d, m)
  {
    MillisecondsWhole(d);
    var m: int :| WholeThousandths(d, m);
    m
  }

  lemma MillisecondsAreThousandths(d: Digits)
    ensures Milliseconds(d) == Thousandths(d)
  {
    hide Milliseconds, WholeThousandths;
    MillisecondsWhole(d);
    ThousandthsUnique(d, Milliseconds(d), Thousandths(d));
  }

  /** The civil fields a match denotes, months counted from 0. */
  ghost function CivilFields(c: Captures): Fields {
    Fields(YearOf(c), NumberOr(c.month, 1) as int - 1, NumberOr(c.day, 1),
           NumberOr(c.hour, 0), NumberOr(c.minute, 0), NumberOr(c.second, 0),
           if c.fraction.Some? then Thousandths(c.fraction.value) else 0)
  }

  /** The day exists in the proleptic Gregorian calendar and the clock time exists, 24:00:00.000 included. */
  predicate Exists(f: Fields) {
    && 0 <= f.month < 12 && 1 <= f.date <= DaysInMonth(f.year, f.month)
    && 0 <= f.minutes < 60 && 0 <= f.seconds < 60
    && (0 <= f.hours < 24 || (f.hours == 24 && f.minutes == 0 && f.seconds == 0 && f.ms == 0))
  }

  predicate ZoneExists(z: Zone) {
    z.Offset? ==> Val(z.hours) < 24 && Val(z.minutes) < 60
  }

  /** What a zone adds to the civil time, in milliseconds. */
  function ZoneShift(z: Zone): int {
    if z.Offset? then (Val(z.hours) * 60 + Val(z.minutes)) * (if z.negative then 60000 else -60000) else 0
  }

  ghost function Denoted(c: Captures, toUTC: int -> int): Parsed {
    if Exists(CivilFields(c)) && ZoneExists(c.zone) then
      var t := CivilTime(CivilFields(c)) + ZoneShift(c.zone);
      var utc := if c.hour.Some? && c.zone.NoZone? then toUTC(t) else t;
      if -8640000000000000 <= utc <= 8640000000000000 then Time(utc) else NaN
    else NaN
  }

  lemma {:induction false} ValBelow(d: Digits)
    ensures Val(d) < Ten(|d|)
  {
    if d != [] {
      ValBelow(d[..|d| - 1]);
    }
  }

  lemma QuotientBelow(v: nat, t: nat)
    requires v < t
    ensures Quotient(v * 1000, t) < 1000
  {
    var q := v * 1000 / t;
    assert v * 1000 == t * q + v * 1000 % t;
    assert q >= 1000 ==> t * q >= t * 1000;
  }

  lemma MillisecondsBelow(d: Digits)
    ensures Milliseconds(d) < 1000
  {
    hide Ten, Val, Quotient;
    ValBelow(d);
    QuotientBelow(Val(d), Ten(|d|));
  }

  lemma MonthDays(year: int, month: nat)
    requires month < 12
    ensures DayFromMonth(year, month + 1) - DayFromMonth(year, month) == DaysInMonth(year, month)
  {
    hide DayFromMonth, DaysInMonth;
    DayFromMonthExact(year, month);
    DayFromMonthExact(year, month + 1);
  }

  lemma InRangeMeaning(c: Captures)
    ensures InRange(c) <==> Exists(CivilFields(c)) && ZoneExists(c.zone)
  {
    hide Val, DayFromMonth, Milliseconds, Thousandths, DaysInMonth, YearOf, NumberOr;
    var f := CivilFields(c);
    if c.fraction.Some? {
      MillisecondsBelow(c.fraction.value);
      MillisecondsAreThousandths(c.fraction.value);
    }
    if 0 <= f.month < 12 {
      MonthDays(f.year, f.month);
    }
  }

  lemma CombinedMeaning(days: int, h: int, mi: int, s: int, ms: int, ho: int, mo: int, negative: bool)
    ensures Combined(days, h, mi, s, ms, ho, mo, if negative then 1 else -1) ==
            days * 86400000 + h * 3600000 + mi * 60000 + s * 1000 + ms +
            (ho * 60 + mo) * (if negative then 60000 else -60000)
  {
  }

  lemma ResultMeaning(c: Captures)
    requires InRange(c) && 0 <= CivilFields(c).month < 12
    ensures ResultOf(c) == CivilTime(CivilFields(c)) + ZoneShift(c.zone)
  {
    hide Val, DayFromMonth, DayNumber, InRange, Combined, Milliseconds, Thousandths;
    var f := CivilFields(c);
    if c.fraction.Some? {
      MillisecondsAreThousandths(c.fraction.value);
    }
    DayFromMonthExact(f.year, f.month);
    var ho, mo := if c.zone.Offset? then Val(c.zone.hours) else 0, if c.zone.Offset? then Val(c.zone.minutes) else 0;
    CombinedMeaning(DayFromMonth(f.year, f.month) + f.date - 1, f.hours, f.minutes, f.seconds, f.ms, ho, mo,
                    c.zone.Offset? && c.zone.negative);
  }

  /** The shim accepts exactly the matches whose day and time exist, and returns their civil time less the zone. */
  lemma ParseMeaning(text: string, toUTC: int -> int)
    ensures Parse(text, toUTC) == match MatchIso(text) case None => Delegated(text) case Some(c) => Denoted(c, toUTC)
  {
    hide MatchIso, InRange, ResultOf, ZoneExists, CivilTime, CivilFields, ZoneShift;
    match MatchIso(text)
    case None =>
    case Some(c) =>
      InRangeMeaning(c);
      if InRange(c) {
        ResultMeaning(c);
      }
  }

  // ---------- The grammar behind the expression ----------

  predicate TwoDigits(d: Option<Digits>) { d.Some? ==> |d.value| == 2 }

  predicate WellFormed(c: Captures) {
    && (|c.year| == 6 || (|c.year| == 4 && !c.negativeYear))
    && TwoDigits(c.month) && TwoDigits(c.day) && TwoDigits(c.hour) && TwoDigits(c.minute) && TwoDigits(c.second)
    && (c.fraction.Some? ==> |c.fraction.value| > 0)
    && (c.day.Some? ==> c.month.Some?) && (c.hour.Some? ==> c.day.Some?) && (c.minute.Some? <==> c.hour.Some?)
    && (c.second.Some? ==> c.hour.Some?) && (c.fraction.Some? ==> c.second.Some?)
    && (!c.zone.NoZone? ==> c.hour.Some?)
    && (c.zone.Offset? ==> |c.zone.hours| == 2 && |c.zone.minutes| == 2)
  }

  function ZoneText(c: Captures): string {
    match c.zone
    case NoZone => ""
    case Utc => "Z"
    case Offset(neg, h, m) => (if neg then "-" else "+") + h + ":" + m
  }

  function FractionText(c: Captures): string {
    (if c.fraction.Some? then "." + c.fraction.value else "") + ZoneText(c)
  }

  function SecondText(c: Captures): string {
    if c.second.Some? then ":" + c.second.value + FractionText(c) else ZoneText(c)
  }

  function TimeText(c: Captures): string {
    if c.hour.Some? && c.minute.Some? then "T" + c.hour.value + ":" + c.minute.value + SecondText(c) else ""
  }

  function DayText(c: Captures): string {
    if c.day.Some? then "-" + c.day.value + TimeText(c) else ""
  }

  function MonthText(c: Captures): string {
    if c.month.Some? then "-" + c.month.value + DayText(c) else ""
  }

  function CapturesText(c: Captures): string {
    (if |c.year| == 4 then "" else if c.negativeYear then "-" else "+") + c.year + MonthText(c)
  }

  lemma ZoneComplete(c: Captures)
    requires WellFormed(c)
    ensures MatchZone(ZoneText(c), c.(zone := NoZone)) == Some(c)
  {
    if c.zone.Offset? {
      var s := ZoneText(c);
      assert s[1..3] == c.zone.hours && s[4..6] == c.zone.minutes;
    }
  }

  lemma {:induction false} DigitRunExact(d: Digits, rest: string)
    requires rest == "" || !IsDigit(rest[0])
    ensures DigitRun(d + rest) == |d|
  {
    if d == "" {
      assert d + rest == rest;
    } else {
      DigitRunExact(d[1..], rest);
      assert (d + rest)[1..] == d[1..] + rest;
    }
  }

  lemma FractionComplete(c: Captures)
    requires WellFormed(c)
    ensures MatchFraction(FractionText(c), c.(zone := NoZone, fraction := None)) == Some(c)
  {
    hide DigitRun;
    ZoneComplete(c);
    var s := FractionText(c);
    if c.fraction.Some? {
      DigitRunExact(c.fraction.value, ZoneText(c));
      assert s[1..] == c.fraction.value + ZoneText(c);
      assert s[1..1 + |c.fraction.value|] == c.fraction.value;
      assert s[1 + |c.fraction.value|..] == ZoneText(c);
      assert IsDigit(s[1]);
    } else {
      assert s == ZoneText(c);
    }
  }

  lemma SecondComplete(c: Captures)
    requires WellFormed(c)
    ensures MatchSecond(SecondText(c), c.(zone := NoZone, fraction := None, second := None)) == Some(c)
  {
    hide MatchFraction, FractionText;
    if c.second.Some? {
      FractionComplete(c);
      var s := SecondText(c);
      assert s[1..3] == c.second.value && s[3..] == FractionText(c);
    } else {
      ZoneComplete(c);
    }
  }

  /** The captures with everything after the day left out. */
  function Dated(c: Captures): Captures {
    c.(zone := NoZone, fraction := None, second := None, minute := None, hour := None)
  }

  lemma TimeComplete(c: Captures)
    requires WellFormed(c)
    ensures MatchTime(TimeText(c), Dated(c)) == Some(c)
  {
    hide MatchSecond, SecondText;
    if c.hour.Some? {
      SecondComplete(c);
      var s := TimeText(c);
      assert s[1..3] == c.hour.value && s[4..6] == c.minute.value && s[6..] == SecondText(c);
      assert Dated(c).(hour := c.hour, minute := c.minute) == c.(zone := NoZone, fraction := None, second := None);
    }
  }

  lemma DayComplete(c: Captures)
    requires WellFormed(c)
    ensures MatchDay(DayText(c), Dated(c).(day := None)) == Some(c)
  {
    hide MatchTime, TimeText;
    if c.day.Some? {
      TimeComplete(c);
      var s := DayText(c);
      assert s[1..3] == c.day.value && s[3..] == TimeText(c);
    }
  }

  lemma MonthComplete(c: Captures)
    requires WellFormed(c)
    ensures MatchMonth(MonthText(c), Dated(c).(day := None, month := None)) == Some(c)
  {
    hide MatchDay, DayText;
    if c.month.Some? {
      DayComplete(c);
      var s := MonthText(c);
      assert s[1..3] == c.month.value && s[3..] == DayText(c);
    }
  }

  /** Every well-formed date text is matched, with its own parts as captures. */
  lemma MatchComplete(c: Captures)
    requires WellFormed(c)
    ensures MatchIso(CapturesText(c)) == Some(c)
  {
    hide MatchMonth, MonthText;
    MonthComplete(c);
    var s := CapturesText(c);
    if |c.year| == 4 {
      assert s[..4] == c.year && s[4..] == MonthText(c);
    } else {
      assert s[1..7] == c.year && s[7..] == MonthText(c);
      assert !IsDigit(s[0]);
    }
  }

  lemma ZoneSound(s: string, c: Captures)
    requires c.zone.NoZone? && WellFormed(c) && MatchZone(s, c).Some?
    ensures var r := MatchZone(s, c).value;
            ZoneText(r) == s && r == c.(zone := r.zone) && (c.hour.Some? ==> WellFormed(r))
  {
    if s != "" && s != "Z" {
      assert s == [s[0]] + s[1..3] + ":" + s[4..6];
    }
  }

  lemma FractionSound(s: string, c: Captures)
    requires c.zone.NoZone? && c.fraction.None? && c.second.Some? && WellFormed(c) && MatchFraction(s, c).Some?
    ensures var r := MatchFraction(s, c).value;
            FractionText(r) == s && WellFormed(r) && r == c.(zone := r.zone, fraction := r.fraction)
  {
    hide DigitRun, MatchZone;
    if |s| > 1 && s[0] == '.' && IsDigit(s[1]) {
      var n := DigitRun(s[1..]);
      assert n > 0 by { assert s[1..][0] == s[1]; }
      ZoneSound(s[1 + n..], c.(fraction := Some(s[1..1 + n])));
      assert s == "." + s[1..1 + n] + s[1 + n..];
    } else {
      ZoneSound(s, c);
    }
  }

  lemma SecondSound(s: string, c: Captures)
    requires Dated(c) == c.(hour := None, minute := None) && c.hour.Some? && WellFormed(c) && MatchSecond(s, c).Some?
    ensures var r := MatchSecond(s, c).value;
            SecondText(r) == s && WellFormed(r) && Dated(r) == Dated(c) && r.hour == c.hour && r.minute == c.minute
  {
    hide MatchFraction, MatchZone;
    if |s| >= 3 && s[0] == ':' && DigitsAt(s, 1, 2) {
      FractionSound(s[3..], c.(second := Some(s[1..3])));
      assert s == ":" + s[1..3] + s[3..];
    } else {
      ZoneSound(s, c);
    }
  }

  lemma TimeSound(s: string, c: Captures)
    requires Dated(c) == c && c.day.Some? && WellFormed(c) && MatchTime(s, c).Some?
    ensures var r := MatchTime(s, c).value; TimeText(r) == s && WellFormed(r) && Dated(r) == c
  {
    hide MatchSecond;
    if s != "" {
      SecondSound(s[6..], c.(hour := Some(s[1..3]), minute := Some(s[4..6])));
      assert s == "T" + s[1..3] + ":" + s[4..6] + s[6..];
    }
  }

  lemma DaySound(s: string, c: Captures)
    requires Dated(c) == c && c.day.None? && c.month.Some? && WellFormed(c) && MatchDay(s, c).Some?
    ensures var r := MatchDay(s, c).value; DayText(r) == s && WellFormed(r) && Dated(r).(day := None) == c
  {
    hide MatchTime;
    if s != "" {
      TimeSound(s[3..], c.(day := Some(s[1..3])));
      assert s == "-" + s[1..3] + s[3..];
    }
  }

  lemma MonthSound(s: string, c: Captures)
    requires Dated(c) == c && c.day.None? && c.month.None? && WellFormed(c) && MatchMonth(s, c).Some?
    ensures var r := MatchMonth(s, c).value;
            MonthText(r) == s && WellFormed(r) && r.year == c.year && r.negativeYear == c.negativeYear
  {
    hide MatchDay;
    if s != "" {
      DaySound(s[3..], c.(month := Some(s[1..3])));
      assert s == "-" + s[1..3] + s[3..];
    }
  }

  lemma MatchSoundShort(s: string)
    requires DigitsAt(s, 0, 4) && MatchIso(s).Some?
    ensures WellFormed(MatchIso(s).value) && CapturesText(MatchIso(s).value) == s
  {
    hide MatchMonth, MonthText;
    MonthSound(s[4..], Captures(false, s[..4], None, None, None, None, None, None, NoZone));
    assert s == "" + s[..4] + s[4..];
  }

  lemma MatchSoundLong(s: string)
    requires !DigitsAt(s, 0, 4) && MatchIso(s).Some?
    ensures WellFormed(MatchIso(s).value) && CapturesText(MatchIso(s).value) == s
  {
    hide MatchMonth, MonthText;
    MonthSound(s[7..], Captures(s[0] == '-', s[1..7], None, None, None, None, None, None, NoZone));
    assert s == (if s[0] == '-' then "-" else "+") + s[1..7] + s[7..];
  }

  /** The expression matches exactly the texts of well-formed captures. */
  lemma MatchSound(s: string)
    requires MatchIso(s).Some?
    ensures WellFormed(MatchIso(s).value) && CapturesText(MatchIso(s).value) == s
  {
    hide MatchIso, WellFormed, CapturesText, DigitsAt;
    if DigitsAt(s, 0, 4) {
      MatchSoundShort(s);
    } else {
      MatchSoundLong(s);
    }
  }

  lemma MatchExact(s: string, c: Captures)
    ensures MatchIso(s) == Some(c) <==> WellFormed(c) && CapturesText(c) == s
  {
    hide MatchIso, WellFormed, CapturesText;
    if MatchIso(s).Some? {
      MatchSound(s);
    }
    if WellFormed(c) {
      MatchComplete(c);
    }
  }

  /** Zeros at the end of a fraction never change the parsed time. */
  lemma FractionZero(c: Captures, toUTC: int -> int)
    requires WellFormed(c) && c.fraction.Some?
    ensures var longer := c.(fraction := Some(c.fraction.value + "0"));
            Parse(CapturesText(longer), toUTC) == Parse(CapturesText(c), toUTC)
  {
    hide MatchIso, CapturesText, Milliseconds, Val, DayFromMonth;
    var longer := c.(fraction := Some(c.fraction.value + "0"));
    MatchComplete(c);
    MatchComplete(longer);
    TrailingZero(c.fraction.value);
    hide WellFormed;
    assert InRange(longer) == InRange(c);
  }

  // ---------- Round trip ----------

  function FieldCaptures(f: Fields): Captures
    requires f.month >= 0 && f.date >= 0 && f.hours >= 0 && f.minutes >= 0 && f.seconds >= 0 && f.ms >= 0
  {
    Captures(f.year < 0, Pad(Absolute(f.year), if 0 <= f.year <= 9999 then 4 else 6),
             Some(Pad(f.month + 1, 2)), Some(Pad(f.date, 2)), Some(Pad(f.hours, 2)), Some(Pad(f.minutes, 2)),
             Some(Pad(f.seconds, 2)), Some(Pad(f.ms, 3)), Utc)
  }

  lemma IsoTextIsCaptures(f: Fields)
    requires f.month >= 0 && f.date >= 0 && f.hours >= 0 && f.minutes >= 0 && f.seconds >= 0 && f.ms >= 0
    ensures WellFormed(FieldCaptures(f)) && CapturesText(FieldCaptures(f)) == IsoText(f)
  {
    hide Pad;
    var c := FieldCaptures(f);
    assert FractionText(c) == "." + Pad(f.ms, 3) + "Z";
    assert (if |c.year| == 4 then "" else if c.negativeYear then "-" else "+") + c.year == YearText(f.year);
  }

  lemma FieldsReadBack(f: Fields)
    requires -999999 <= f.year <= 999999 && 0 <= f.month < 99 && 0 <= f.date < 100
    requires 0 <= f.hours < 100 && 0 <= f.minutes < 100 && 0 <= f.seconds < 100 && 0 <= f.ms < 1000
    ensures CivilFields(FieldCaptures(f)) == f
  {
    SmallPowers();
    hide Pad, Ten, Val, Thousandths;
    ValPad(Absolute(f.year), if 0 <= f.year <= 9999 then 4 else 6);
    ValPad(f.month + 1, 2);
    ValPad(f.date, 2);
    ValPad(f.hours, 2);
    ValPad(f.minutes, 2);
    ValPad(f.seconds, 2);
    ValPad(f.ms, 3);
    ThousandthsUnique(Pad(f.ms, 3), f.ms, Thousandths(Pad(f.ms, 3)));
  }

  lemma DenotedUtc(c: Captures, f: Fields, toUTC: int -> int)
    requires CivilFields(c) == f && Exists(f) && c.zone.Utc?
    requires f.month >= 0 && -8640000000000000 <= CivilTime(f) <= 8640000000000000
    ensures Denoted(c, toUTC) == Time(CivilTime(f))
  {
    hide CivilFields, Exists, CivilTime;
  }

  /** Parsing the ISO text of a time value gives the time value back. */
  lemma ParseOfIsoText(t: int, toUTC: int -> int)
    requires -8640000000000000 <= t <= 8640000000000000
    ensures Parse(IsoText(UTCFields(t)), toUTC) == Time(t)
  {
    hide UTCFields, IsoText, Parse, MatchIso, FieldCaptures, CivilTime, Denoted, CivilFields, DaysInMonth;
    var f := UTCFields(t);
    YearRange(t);
    FieldsExact(t);
    MonthLength(f.year, f.month);
    IsoTextIsCaptures(f);
    MatchComplete(FieldCaptures(f));
    ParseMeaning(IsoText(f), toUTC);
    FieldsReadBack(f);
    UtcCaptures(f);
    DenotedUtc(FieldCaptures(f), f, toUTC);
  }

  lemma UtcCaptures(f: Fields)
    requires f.month >= 0 && f.date >= 0 && f.hours >= 0 && f.minutes >= 0 && f.seconds >= 0 && f.ms >= 0
    ensures FieldCaptures(f).zone == Utc
  {
  }

  lemma MonthLength(y: int, m: int)
    ensures DaysInMonth(y, m) <= 31
  {
  }

  /** No two time values share a text. */
  lemma IsoTextInjective(t: int, u: int)
    requires -8640000000000000 <= t <= 8640000000000000 && -8640000000000000 <= u <= 8640000000000000
    requires IsoText(UTCFields(t)) == IsoText(UTCFields(u))
    ensures t == u
  {
    ParseOfIsoText(t, x => x);
    ParseOfIsoText(u, x => x);
  }
}
