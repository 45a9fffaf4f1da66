/**
 * Proleptic Gregorian calendar dates, as Python's `datetime.date` provides them to
 * the application: validity, day ordinals (what `date - date` and `timedelta`
 * arithmetic reduce to), the next and previous day, and the lexicographic order
 * that Python uses to compare dates.
 */
module Calendar {

  import opened Common

  datatype Date = Date(year: int, month: int, day: int)

  predicate IsLeap(y: int) {
    y % 4 == 0 && (y % 100 != 0 || y % 400 == 0)
  }

  function DaysInMonth(y: int, m: int): int {
    if m == 2 then (if IsLeap(y) then 29 else 28)
    else if m == 4 || m == 6 || m == 9 || m == 11 then 30
    else 31
  }

  function DaysInYear(y: int): int {
    if IsLeap(y) then 366 else 365
  }

  /** A date that `datetime.date(year, month, day)` accepts (the 9999 upper bound is not modelled). */
  predicate Valid(d: Date) {
    1 <= d.year && 1 <= d.month <= 12 && 1 <= d.day <= DaysInMonth(d.year, d.month)
  }

  /** 29 February, which the daily series of the application skip. */
  predicate IsLeapDay(d: Date) {
    d.month == 2 && d.day == 29
  }

  /** Number of days in the years 1 .. y-1. */
  function DaysBeforeYear(y: int): int {
    var p := y - 1;
    365 * p + p / 4 - p / 100 + p / 400
  }

  /** Number of days in the months 1 .. m-1 of year y. */
  function DaysBeforeMonth(y: int, m: int): int {
    var leap := if m > 2 && IsLeap(y) then 1 else 0;
    leap +
    if m <= 1 then 0 else if m == 2 then 31 else if m == 3 then 59
    else if m == 4 then 90 else if m == 5 then 120 else if m == 6 then 151
    else if m == 7 then 181 else if m == 8 then 212 else if m == 9 then 243
    else if m == 10 then 273 else if m == 11 then 304 else 334
  }

  /** Day number with 1 January of year 1 as day 1, like `date.toordinal()`. */
  function Ordinal(d: Date): int {
    DaysBeforeYear(d.year) + DaysBeforeMonth(d.year, d.month) + d.day
  }

  /** `(b - a).days` */
  function DaysBetween(a: Date, b: Date): int {
    Ordinal(b) - Ordinal(a)
  }

  /** Python's `a < b` on dates: lexicographic on (year, month, day). */
  predicate Before(a: Date, b: Date) {
    a.year < b.year || (a.year == b.year && (a.month < b.month || (a.month == b.month && a.day < b.day)))
  }

  /** Python's `a <= b` on dates. */
  predicate NotAfter(a: Date, b: Date) {
    a == b || Before(a, b)
  }

  /** `d + timedelta(days=1)` */
  function Next(d: Date): Date {
    if d.day < DaysInMonth(d.year, d.month) then Date(d.year, d.month, d.day + 1)
    else if d.month < 12 then Date(d.year, d.month + 1, 1)
    else Date(d.year + 1, 1, 1)
  }

  /** `d - timedelta(days=1)`; Python overflows before 1 January of year 1. */
  function Prev(d: Date): Date {
    if d.day > 1 then Date(d.year, d.month, d.day - 1)
    else if d.month > 1 then Date(d.year, d.month - 1, DaysInMonth(d.year, d.month - 1))
    else Date(d.year - 1, 12, 31)
  }

  /** `d + timedelta(days=n)` for n >= 0. */
  function AddDays(d: Date, n: nat): Date {
    if n == 0 then d else Next(AddDays(d, n - 1))
  }

  /** `d.replace(year=y)`: None where Python raises ValueError (29 February into a common year). */
  function ReplaceYear(d: Date, y: int): (r: Option<Date>)
    requires Valid(d) && y >= 1
    ensures r.Some? <==> !(IsLeapDay(d) && !IsLeap(y))
    ensures r.Some? ==> Valid(r.value) && r.value.year == y && r.value.month == d.month && r.value.day == d.day
  {
    if Valid(Date(y, d.month, d.day)) then Some(Date(y, d.month, d.day)) else None
  }

  lemma YearStep(y: int)
    ensures DaysBeforeYear(y + 1) == DaysBeforeYear(y) + DaysInYear(y)
  {
    DivStep(y - 1, 4);
    DivStep(y - 1, 100);
    DivStep(y - 1, 400);
    MultipleChain(y);
    assert y - 1 + 1 == y;
  }

  /** A multiple of 400 is one of 100, and a multiple of 100 one of 4. */
  lemma MultipleChain(y: int)
    ensures y % 400 == 0 ==> y % 100 == 0
    ensures y % 100 == 0 ==> y % 4 == 0
  {
    if y % 400 == 0 {
      var m := 4 * (y / 400);
      assert y == 100 * m;
      assert y / 100 == m;
    }
    if y % 100 == 0 {
      var m := 25 * (y / 100);
      assert y == 4 * m;
      assert y / 4 == m;
    }
  }

  /** Counting the multiples of k (4, 100 or 400): one more when the next number is one. */
  lemma DivStep(p: int, k: int)
    requires k == 4 || k == 100 || k == 400
    ensures (p + 1) / k == p / k + (if (p + 1) % k == 0 then 1 else 0)
  {
    if k == 4 {
      var q, r := p / 4, p % 4;
      if r == 3 { assert p + 1 == 4 * (q + 1); } else { assert p + 1 == 4 * q + (r + 1); }
    } else if k == 100 {
      var q, r := p / 100, p % 100;
      if r == 99 { assert p + 1 == 100 * (q + 1); } else { assert p + 1 == 100 * q + (r + 1); }
    } else {
      var q, r := p / 400, p % 400;
      if r == 399 { assert p + 1 == 400 * (q + 1); } else { assert p + 1 == 400 * q + (r + 1); }
    }
  }

  lemma {:induction false} YearsMonotone(y1: int, y2: int)
    requires y1 <= y2
    ensures DaysBeforeYear(y1) + (if y1 < y2 then DaysInYear(y1) else 0) <= DaysBeforeYear(y2)
    decreases y2 - y1
  {
    if y1 < y2 {
      YearStep(y1);
      if y1 + 1 < y2 {
        YearsMonotone(y1 + 1, y2);
      }
    }
  }

  /** The day falls inside its month and its year. */
  lemma OrdinalBounds(d: Date)
    requires Valid(d)
    ensures DaysBeforeYear(d.year) + DaysBeforeMonth(d.year, d.month) < Ordinal(d)
    ensures Ordinal(d) <= DaysBeforeYear(d.year) + DaysBeforeMonth(d.year, d.month) + DaysInMonth(d.year, d.month)
    ensures Ordinal(d) <= DaysBeforeYear(d.year) + DaysInYear(d.year)
    ensures d.month < 12 ==> DaysBeforeMonth(d.year, d.month) + DaysInMonth(d.year, d.month) == DaysBeforeMonth(d.year, d.month + 1)
  {
  }

  lemma MonthsMonotone(y: int, m1: int, m2: int)
    requires 1 <= m1 <= m2 <= 12
    ensures DaysBeforeMonth(y, m1) <= DaysBeforeMonth(y, m2)
  {
  }

  /** Python's date comparison agrees with the day ordinal. */
  lemma BeforeIsOrdinalOrder(a: Date, b: Date)
    requires Valid(a) && Valid(b)
    ensures Before(a, b) <==> Ordinal(a) < Ordinal(b)
  {
    if Before(a, b) {
      BeforeImpliesSmaller(a, b);
    } else if a != b {
      assert Before(b, a);
      BeforeImpliesSmaller(b, a);
    }
  }

  lemma BeforeImpliesSmaller(a: Date, b: Date)
    requires Valid(a) && Valid(b) && Before(a, b)
    ensures Ordinal(a) < Ordinal(b)
  {
    OrdinalBounds(a);
    OrdinalBounds(b);
    if a.year < b.year {
      YearsMonotone(a.year, b.year);
    } else if a.month < b.month {
      MonthsMonotone(a.year, a.month + 1, b.month);
    }
  }

  /** Distinct valid dates have distinct ordinals. */
  lemma OrdinalInjective(a: Date, b: Date)
    requires Valid(a) && Valid(b)
    ensures Ordinal(a) == Ordinal(b) <==> a == b
  {
    if a != b {
      if Before(a, b) { BeforeImpliesSmaller(a, b); } else { assert Before(b, a); BeforeImpliesSmaller(b, a); }
    }
  }

  lemma NotAfterIsOrdinalOrder(a: Date, b: Date)
    requires Valid(a) && Valid(b)
    ensures NotAfter(a, b) <==> Ordinal(a) <= Ordinal(b)
  {
    BeforeIsOrdinalOrder(a, b);
    OrdinalInjective(a, b);
  }

  /** The next day is a valid date one ordinal later. */
  lemma NextStep(d: Date)
    requires Valid(d)
    ensures Valid(Next(d)) && Ordinal(Next(d)) == Ordinal(d) + 1
  {
    if d.day == DaysInMonth(d.year, d.month) && d.month == 12 {
      YearStep(d.year);
    }
  }

  /** The next day comes right after: no valid date lies strictly between the two. */
  lemma NextIsSuccessor(d: Date, x: Date)
    requires Valid(d) && Valid(x)
    ensures Valid(Next(d)) && Before(d, Next(d))
    ensures Before(d, x) ==> NotAfter(Next(d), x)
  {
    NextStep(d);
    BeforeIsOrdinalOrder(d, x);
    NotAfterIsOrdinalOrder(Next(d), x);
  }

  /** Walking forward from a valid date only reaches valid dates. */
  lemma {:induction false} AddDaysValid(d: Date, n: nat)
    requires Valid(d)
    ensures Valid(AddDays(d, n))
  {
    if n > 0 {
      AddDaysValid(d, n - 1);
      NextIsSuccessor(AddDays(d, n - 1), d);
    }
  }

  /** The previous day is a valid date one ordinal earlier, and Next undoes it. */
  lemma PrevStep(d: Date)
    requires Valid(d) && d.year > 1
    ensures Valid(Prev(d)) && Ordinal(Prev(d)) == Ordinal(d) - 1 && Next(Prev(d)) == d
  {
    if d.day == 1 && d.month == 1 {
      YearStep(d.year - 1);
    }
  }

  lemma {:induction false} AddDaysStep(d: Date, n: nat)
    requires Valid(d)
    ensures Valid(AddDays(d, n)) && Ordinal(AddDays(d, n)) == Ordinal(d) + n
  {
    if n > 0 {
      AddDaysStep(d, n - 1);
      NextStep(AddDays(d, n - 1));
    }
  }
}
