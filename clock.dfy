/** Calendar time as the retention cycle reads it from `DateTime.Now`: the fields it prints
    into a backup directory name, and a count of whole seconds on which the model compares
    creation times with the expiry cutoff (the .NET clock counts 100 ns ticks; the model
    drops the fraction of a second). */
module Clock {
  import opened Paths

  const SecondsPerDay: int := 86400

  datatype DateTime = DateTime(year: int, month: int, day: int, hour: int, minute: int, second: int)
  {
    /** The range of a .NET `DateTime`, truncated to whole seconds. */
    predicate Valid()
    {
      && 1 <= year <= 9999
      && 1 <= month <= 12
      && 1 <= day <= DaysInMonth(year, month)
      && 0 <= hour < 24 && 0 <= minute < 60 && 0 <= second < 60
    }
  }

  predicate IsLeapYear(y: int)
  {
    y % 4 == 0 && (y % 100 != 0 || y % 400 == 0)
  }

  function DaysInMonth(y: int, m: int): (n: int)
  {
    if m == 2 then (if IsLeapYear(y) then 29 else 28)
    else if m == 4 || m == 6 || m == 9 || m == 11 then 30
    else 31
  }

  /** Days from 0001-01-01 to the first day of year `y`, the year count of .NET's
      `DateTime` (365 a year, plus every fourth year, less every hundredth, plus every
      four hundredth). */
  function DaysBeforeYear(y: int): (n: int)
  {
    var p := y - 1;
    365 * p + p / 4 - p / 100 + p / 400
  }

  /** Days in year `y` before the first day of month `m`. */
  function DaysBeforeMonth(y: int, m: int): (n: int)
  {
    var leap := if m > 2 && IsLeapYear(y) then 1 else 0;
    leap + (if m <= 1 then 0 else if m == 2 then 31 else if m == 3 then 59 else if m == 4 then 90
      else if m == 5 then 120 else if m == 6 then 151 else if m == 7 then 181 else if m == 8 then 212
      else if m == 9 then 243 else if m == 10 then 273 else if m == 11 then 304 else 334)
  }

  /** Days from 0001-01-01 to the given proleptic Gregorian date: a `DateTime`'s ticks
      divided by the ticks of one day. */
  function DayNumber(y: int, m: int, d: int): (n: int)
  {
    DaysBeforeYear(y) + DaysBeforeMonth(y, m) + d - 1
  }

  /** The instant as a number of whole seconds since 0001-01-01, the scale on which the
      model compares creation times. */
  function Seconds(t: DateTime): (n: int)
    ensures t.Valid() ==> 0 <= n - DayNumber(t.year, t.month, t.day) * SecondsPerDay < SecondsPerDay
  {
    DayNumber(t.year, t.month, t.day) * SecondsPerDay + t.hour * 3600 + t.minute * 60 + t.second
  }

  /** `a` is earlier than `b`, compared field by field from the year down to the second. */
  predicate Earlier(a: DateTime, b: DateTime)
  {
    || a.year < b.year
    || (a.year == b.year && a.month < b.month)
    || (a.year == b.year && a.month == b.month && a.day < b.day)
    || (a.year == b.year && a.month == b.month && a.day == b.day
        && (a.hour < b.hour || (a.hour == b.hour && (a.minute < b.minute
              || (a.minute == b.minute && a.second < b.second)))))
  }

  /** The count of seconds keeps the order of valid instants, so comparing counts, as the
      expiry does, compares the instants. */
  lemma SecondsKeepsOrder(a: DateTime, b: DateTime)
    requires a.Valid() && b.Valid()
    ensures Earlier(a, b) <==> Seconds(a) < Seconds(b)
  {
    if Earlier(a, b) {
      EarlierDay(a, b);
    } else if a != b {
      EarlierDay(b, a);
    }
  }

  /** An earlier instant has the smaller count. */
  lemma EarlierDay(a: DateTime, b: DateTime)
    requires a.Valid() && b.Valid() && Earlier(a, b)
    ensures Seconds(a) < Seconds(b)
  {
    var da, db := DayNumber(a.year, a.month, a.day), DayNumber(b.year, b.month, b.day);
    if a.year < b.year {
      DayWithinYear(a.year, a.month, a.day);
      DayWithinYear(b.year, b.month, b.day);
      YearsGrow(a.year, b.year);
      assert da < db;
    } else if a.month < b.month {
      MonthsGrow(a.year, a.month, b.month);
      assert da < db;
    } else if a.day < b.day {
      assert da < db;
    }
  }

  /** The days of a valid date lie inside its year. */
  lemma DayWithinYear(y: int, m: int, d: int)
    requires 1 <= m <= 12 && 1 <= d <= DaysInMonth(y, m)
    ensures DaysBeforeYear(y) <= DayNumber(y, m, d) < DaysBeforeYear(y + 1)
  {
    YearLength(y);
  }

  /** A year holds 366 days when it is a leap year and 365 otherwise. */
  lemma YearLength(y: int)
    ensures DaysBeforeYear(y + 1) - DaysBeforeYear(y) == if IsLeapYear(y) then 366 else 365
  {
    DivStep(y, 4);
    DivStep(y, 100);
    DivStep(y, 400);
  }

  /** Stepping a number by one moves its quotient by one exactly at a multiple. */
  lemma DivStep(y: int, k: int)
    requires k == 4 || k == 100 || k == 400
    ensures y / k - (y - 1) / k == if y % k == 0 then 1 else 0
  {
  }

  /** A later year starts later. */
  lemma {:induction false} YearsGrow(y: int, y': int)
    requires y < y'
    ensures DaysBeforeYear(y + 1) <= DaysBeforeYear(y')
    decreases y' - y
  {
    if y + 1 < y' {
      YearsGrow(y + 1, y');
      YearLength(y + 1);
    }
  }

  /** Within a year, a valid day of an earlier month precedes the first of a later one. */
  lemma MonthsGrow(y: int, m: int, m': int)
    requires 1 <= m < m' <= 12
    ensures DaysBeforeMonth(y, m) + DaysInMonth(y, m) <= DaysBeforeMonth(y, m')
  {
  }

  /** `ToString("yyyyMMdd_HHmmss")`. */
  function Stamp(t: DateTime): (s: string)
    requires t.Valid()
    ensures |s| == 15 && s[8] == '_'
    ensures forall i :: 0 <= i < 15 && i != 8 ==> '0' <= s[i] <= '9'
  {
    ZeroPad(t.year, 4) + ZeroPad(t.month, 2) + ZeroPad(t.day, 2) + "_"
      + ZeroPad(t.hour, 2) + ZeroPad(t.minute, 2) + ZeroPad(t.second, 2)
  }

  /** Two different valid instants never print the same stamp, so two cycles started in
      different seconds name different backup directories. */
  lemma StampInjective(a: DateTime, b: DateTime)
    requires a.Valid() && b.Valid()
    requires Stamp(a) == Stamp(b)
    ensures a == b
  {
    assert Pow10(2) == 100 && Pow10(4) == 10000;
    StampFields(a);
    StampFields(b);
    ZeroPadInjective(a.year, b.year, 4);
    ZeroPadInjective(a.month, b.month, 2);
    ZeroPadInjective(a.day, b.day, 2);
    ZeroPadInjective(a.hour, b.hour, 2);
    ZeroPadInjective(a.minute, b.minute, 2);
    ZeroPadInjective(a.second, b.second, 2);
  }

  /** Where each field sits in the stamp. */
  lemma StampFields(t: DateTime)
    requires t.Valid()
    ensures var s := Stamp(t);
      && s[0..4] == ZeroPad(t.year, 4) && s[4..6] == ZeroPad(t.month, 2) && s[6..8] == ZeroPad(t.day, 2)
      && s[9..11] == ZeroPad(t.hour, 2) && s[11..13] == ZeroPad(t.minute, 2) && s[13..15] == ZeroPad(t.second, 2)
  {
  }

}
