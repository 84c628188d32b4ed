/** The proleptic Gregorian calendar counted day by day, the closed formula of
    the date shim, and the UTC fields of a time value (sections 15.9.1.2 to
    15.9.1.10 of ECMA-262 5.1). */
module GregorianCalendar {
  predicate Leap(y: int) { y % 4 == 0 && (y % 100 != 0 || y % 400 == 0) }

  function DaysInYear(y: int): int { if Leap(y) then 366 else 365 }

  /** Months are numbered from 0. */
  function DaysInMonth(y: int, m: int): int {
    if m == 1 then (if Leap(y) then 29 else 28)
    else if m == 3 || m == 5 || m == 8 || m == 10 then 30 else 31
  }

  /** Days from 1970-01-01 to the first day of year y. */
  function DaysBeforeYear(y: int): int
    decreases if y < 1970 then 1970 - y else y - 1970
  {
    if y == 1970 then 0
    else if y > 1970 then DaysBeforeYear(y - 1) + DaysInYear(y - 1)
    else DaysBeforeYear(y + 1) - DaysInYear(y)
  }

  function DaysBeforeMonth(y: int, m: nat): int {
    if m == 0 then 0 else DaysBeforeMonth(y, m - 1) + DaysInMonth(y, m - 1)
  }

  /** Days from 1970-01-01 to the first day of month m of year y. */
  function DayNumber(y: int, m: nat): int {
    DaysBeforeYear(y) + DaysBeforeMonth(y, m)
  }

  // ---------- The closed formula ----------

  const MONTHS: seq<int> := [0, 31, 59, 90, 120, 151, 181, 212, 243, 273, 304, 334, 365]

  function DayFromMonth(year: int, month: int): int
    requires 0 <= month <= 12
  {
    var t := if month > 1 then 1 else 0;
    MONTHS[month] + (year - 1969 + t) / 4 - (year - 1901 + t) / 100 + (year - 1601 + t) / 400 + 365 * (year - 1970)
  }

  function FormulaBeforeYear(y: int): int {
    (y - 1969) / 4 - (y - 1901) / 100 + (y - 1601) / 400 + 365 * (y - 1970)
  }

  lemma LeapStep4(y: int)
    ensures (y - 1968) / 4 - (y - 1969) / 4 == if y % 4 == 0 then 1 else 0
  {
  }

  lemma LeapStep100(y: int)
    ensures (y - 1900) / 100 - (y - 1901) / 100 == if y % 100 == 0 then 1 else 0
  {
  }

  lemma LeapStep400(y: int)
    ensures (y - 1600) / 400 - (y - 1601) / 400 == if y % 400 == 0 then 1 else 0
    ensures y % 400 == 0 ==> y % 100 == 0
  {
  }

  lemma CenturyIsFourth(y: int)
    ensures y % 100 == 0 ==> y % 4 == 0
  {
  }

  lemma FormulaStep(y: int)
    ensures FormulaBeforeYear(y + 1) == FormulaBeforeYear(y) + DaysInYear(y)
  {
    LeapStep4(y);
    LeapStep100(y);
    LeapStep400(y);
    CenturyIsFourth(y);
  }

  lemma {:induction false} FormulaExact(y: int)
    ensures FormulaBeforeYear(y) == DaysBeforeYear(y)
    decreases if y < 1970 then 1970 - y else y - 1970
  {
    if y > 1970 {
      FormulaExact(y - 1);
      FormulaStep(y - 1);
    } else if y < 1970 {
      FormulaExact(y + 1);
      FormulaStep(y);
    }
  }

  lemma MonthTable(y: int, m: nat)
    requires m <= 12
    ensures DaysBeforeMonth(y, m) == MONTHS[m] + if m > 1 && Leap(y) then 1 else 0
    decreases m
  {
    if m > 0 {
      MonthTable(y, m - 1);
    }
  }

  /** The formula counts days of the proleptic calendar for every year, and for the month after December too. */
  lemma DayFromMonthExact(y: int, m: nat)
    requires m <= 12
    ensures DayFromMonth(y, m) == DayNumber(y, m)
  {
    MonthTable(y, m);
    FormulaExact(y);
    FormulaStep(y);
  }

  // ---------- Fields of a day ----------

  lemma {:induction false} YearsGrow(a: int, b: int)
    requires a <= b
    ensures DaysBeforeYear(b) - DaysBeforeYear(a) >= 365 * (b - a)
    decreases b - a
  {
    if a < b {
      YearsGrow(a, b - 1);
      YearStep(b - 1);
    }
  }

  lemma YearStep(y: int)
    ensures DaysBeforeYear(y + 1) == DaysBeforeYear(y) + DaysInYear(y)
  {
  }

  /** The year containing day d, searched from year y. */
  function YearFrom(d: int, y: int): (r: int)
    ensures DaysBeforeYear(r) <= d < DaysBeforeYear(r) + DaysInYear(r)
    decreases if d < DaysBeforeYear(y) then DaysBeforeYear(y) - d else d - DaysBeforeYear(y) + 1,
              if d < DaysBeforeYear(y) then 1 else 0
  {
    YearStep(y);
    YearStep(y - 1);
    if d < DaysBeforeYear(y) then
      if d >= DaysBeforeYear(y - 1) then y - 1 else YearFrom(d, y - 1)
    else if d >= DaysBeforeYear(y + 1) then YearFrom(d, y + 1)
    else y
  }

  function YearFromDay(d: int): (r: int)
    ensures DaysBeforeYear(r) <= d < DaysBeforeYear(r) + DaysInYear(r)
  {
    YearFrom(d, 1970)
  }

  lemma YearUnique(d: int, y: int)
    requires DaysBeforeYear(y) <= d < DaysBeforeYear(y) + DaysInYear(y)
    ensures YearFromDay(d) == y
  {
    var r := YearFromDay(d);
    YearStep(y);
    YearStep(r);
    if r < y {
      YearsGrow(r + 1, y);
    } else if y < r {
      YearsGrow(y + 1, r);
    }
  }

  /** The month of day k of year y, searched from month m. */
  function MonthFrom(y: int, k: int, m: nat): (r: nat)
    requires m < 12 && DaysBeforeMonth(y, m) <= k < DaysInYear(y)
    ensures r < 12 && DaysBeforeMonth(y, r) <= k < DaysBeforeMonth(y, r) + DaysInMonth(y, r)
    decreases 12 - m
  {
    MonthTable(y, 12);
    if k < DaysBeforeMonth(y, m + 1) then m else MonthFrom(y, k, m + 1)
  }

  datatype Fields = Fields(year: int, month: int, date: int, hours: int, minutes: int, seconds: int, ms: int)

  /** The UTC getters of a time value. */
  function UTCFields(t: int): (f: Fields)
    ensures 0 <= f.month < 12 && 1 <= f.date <= DaysInMonth(f.year, f.month)
    ensures 0 <= f.hours < 24 && 0 <= f.minutes < 60 && 0 <= f.seconds < 60 && 0 <= f.ms < 1000
  {
    var d, w := t / 86400000, t % 86400000;
    var y := YearFromDay(d);
    var k := d - DaysBeforeYear(y);
    var m := MonthFrom(y, k, 0);
    Fields(y, m, k - DaysBeforeMonth(y, m) + 1, w / 3600000, w / 60000 % 60, w / 1000 % 60, w % 1000)
  }

  /** The time value of civil fields: MakeDate over MakeDay and MakeTime. */
  function CivilTime(f: Fields): int
    requires f.month >= 0
  {
    (DayNumber(f.year, f.month) + f.date - 1) * 86400000 +
    f.hours * 3600000 + f.minutes * 60000 + f.seconds * 1000 + f.ms
  }

  lemma TimeOfDay(w: int)
    requires 0 <= w < 86400000
    ensures w == w / 3600000 * 3600000 + w / 60000 % 60 * 60000 + w / 1000 % 60 * 1000 + w % 1000
  {
    var s := w / 1000;
    assert w == s * 1000 + w % 1000;
    var mi := s / 60;
    assert s == mi * 60 + s % 60;
    assert w / 60000 == mi;
    var h := mi / 60;
    assert mi == h * 60 + mi % 60;
    assert w / 3600000 == h;
  }

  lemma FieldsExact(t: int)
    ensures CivilTime(UTCFields(t)) == t
  {
    TimeOfDay(t % 86400000);
  }

  /** The years of time values fit in six digits. */
  lemma YearRange(t: int)
    requires -8640000000000000 <= t <= 8640000000000000
    ensures -999999 <= UTCFields(t).year <= 999999
  {
    var d := t / 86400000;
    var y := YearFromDay(d);
    assert -100000000 <= d <= 100000000;
    if y > 1970 {
      YearsGrow(1970, y);
    } else {
      YearsGrow(y, 1970);
    }
  }
}
